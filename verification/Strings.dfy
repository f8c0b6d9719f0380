/** The string operations of Go's standard library that the modelled code calls.
    A string is a sequence of runes. */
module Strings {

  datatype Option<+T> = None | Some(value: T)

  function Min(a: int, b: int): int { if a <= b then a else b }
  function Max(a: int, b: int): int { if a >= b then a else b }

  ghost predicate Distinct(list: seq<string>) {
    forall i, j :: 0 <= i < j < |list| ==> list[i] != list[j]
  }

  /** strings.Repeat for one rune. */
  function Repeat(c: char, n: nat): string {
    seq(n, _ => c)
  }

  /** unicode.IsSpace. */
  predicate IsSpace(c: char) {
    || '\t' <= c <= '\r' || c == ' ' || c == '\U{0085}' || c == '\U{00A0}' || c == '\U{1680}'
    || '\U{2000}' <= c <= '\U{200A}' || c == '\U{2028}' || c == '\U{2029}' || c == '\U{202F}'
    || c == '\U{205F}' || c == '\U{3000}'
  }

  /** The runes with the property White_Space. */
  const SPACES := [
    '\t', '\n', '\U{000B}', '\U{000C}', '\r', ' ', '\U{0085}', '\U{00A0}', '\U{1680}',
    '\U{2000}', '\U{2001}', '\U{2002}', '\U{2003}', '\U{2004}', '\U{2005}', '\U{2006}', '\U{2007}', '\U{2008}',
    '\U{2009}', '\U{200A}', '\U{2028}', '\U{2029}', '\U{202F}', '\U{205F}', '\U{3000}']

  lemma SpacesListed(c: char)
    ensures IsSpace(c) <==> c in SPACES
  {
    var n := c as int;
    if 9 <= n <= 13 {
      assert c == SPACES[n - 9];
    } else if 0x2000 <= n <= 0x200A {
      assert c == SPACES[9 + n - 0x2000];
    }
  }

  function TrimLeft(s: string): string {
    if s != "" && IsSpace(s[0]) then TrimLeft(s[1..]) else s
  }

  function TrimRight(s: string): string {
    if s != "" && IsSpace(s[|s| - 1]) then TrimRight(s[..|s| - 1]) else s
  }

  lemma {:induction false} TrimLeftSplits(s: string) returns (left: string)
    ensures AllSpace(left) && s == left + TrimLeft(s)
    ensures TrimLeft(s) == "" || !IsSpace(TrimLeft(s)[0])
  {
    if s != "" && IsSpace(s[0]) {
      var rest := TrimLeftSplits(s[1..]);
      left := [s[0]] + rest;
    } else {
      left := "";
    }
  }

  lemma {:induction false} TrimRightSplits(s: string) returns (right: string)
    ensures AllSpace(right) && s == TrimRight(s) + right
    ensures TrimRight(s) == "" || !IsSpace(TrimRight(s)[|TrimRight(s)| - 1])
  {
    if s != "" && IsSpace(s[|s| - 1]) {
      var rest := TrimRightSplits(s[..|s| - 1]);
      right := rest + [s[|s| - 1]];
    } else {
      right := "";
    }
  }

  /** strings.TrimSpace. */
  function TrimSpace(s: string): string {
    TrimRight(TrimLeft(s))
  }

  /** A string without white space at either end, which TrimSpace leaves alone. */
  predicate IsTrimmed(s: string) {
    s == "" || (!IsSpace(s[0]) && !IsSpace(s[|s| - 1]))
  }

  predicate AllSpace(s: string) {
    forall i :: 0 <= i < |s| ==> IsSpace(s[i])
  }

  lemma {:induction false} TrimLeftPadded(left: string, rest: string)
    requires AllSpace(left) && (rest == "" || !IsSpace(rest[0]))
    ensures TrimLeft(left + rest) == rest
  {
    if left == "" {
      assert left + rest == rest;
    } else {
      assert (left + rest)[1..] == left[1..] + rest;
      TrimLeftPadded(left[1..], rest);
    }
  }

  lemma {:induction false} TrimRightPadded(rest: string, right: string)
    requires AllSpace(right) && (rest == "" || !IsSpace(rest[|rest| - 1]))
    ensures TrimRight(rest + right) == rest
  {
    if right == "" {
      assert rest + right == rest;
    } else {
      var shorter := right[..|right| - 1];
      assert (rest + right)[..|rest + right| - 1] == rest + shorter;
      TrimRightPadded(rest, shorter);
    }
  }

  /** TrimSpace finds the trimmed core of any string padded with white space. */
  lemma TrimPadded(left: string, core: string, right: string)
    requires AllSpace(left) && AllSpace(right) && IsTrimmed(core)
    ensures TrimSpace(left + core + right) == core
  {
    if core == "" {
      TrimLeftPadded(left + right, "");
      assert left + core + right == (left + right) + "";
    } else {
      TrimLeftPadded(left, core + right);
      assert left + core + right == left + (core + right);
      TrimRightPadded(core, right);
    }
  }

  /** TrimSpace removes white space from both ends and nothing else. */
  lemma TrimSplits(s: string) returns (left: string, right: string)
    ensures AllSpace(left) && AllSpace(right) && s == left + TrimSpace(s) + right
    ensures IsTrimmed(TrimSpace(s))
  {
    left := TrimLeftSplits(s);
    right := TrimRightSplits(TrimLeft(s));
    if TrimSpace(s) != "" {
      assert TrimSpace(s)[0] == TrimLeft(s)[0];
    }
  }

  lemma TrimTrimmed(s: string)
    ensures IsTrimmed(s) <==> TrimSpace(s) == s
  {
    if IsTrimmed(s) {
      TrimPadded("", s, "");
      assert "" + s + "" == s;
    } else if TrimSpace(s) == s {
      var left, right := TrimSplits(s);
      assert false;
    }
  }

  /** strings.Index for a one-rune needle; None is Go's -1. */
  function Index(s: string, c: char): (r: Option<nat>)
    ensures r.None? <==> c !in s
    ensures r.Some? ==> r.value < |s| && s[r.value] == c && c !in s[..r.value]
    ensures r.Some? ==> forall j :: 0 <= j < r.value ==> s[j] != c
  {
    if s == "" then None
    else if s[0] == c then Some(0)
    else
      match Index(s[1..], c)
      case None => None
      case Some(i) => assert s[..i + 1] == [s[0]] + s[1..][..i]; Some(i + 1)
  }

  lemma IndexIs(s: string, c: char, i: nat)
    requires i < |s| && s[i] == c && c !in s[..i]
    ensures Index(s, c) == Some(i)
  {
    assert forall j :: 0 <= j < i ==> s[j] == s[..i][j];
  }

  /** strings.Contains. */
  predicate Contains(s: string, needle: string) {
    exists i :: 0 <= i <= |s| && needle <= s[i..]
  }

  /** strings.Split for a one-rune separator. */
  function Split(s: string, sep: char): (parts: seq<string>)
    ensures |parts| >= 1
    ensures forall p :: p in parts ==> sep !in p
    ensures Join(parts, [sep]) == s
    decreases |s|
  {
    match Index(s, sep)
    case None => [s]
    case Some(i) =>
      var rest := Split(s[i + 1..], sep);
      assert s == s[..i] + [sep] + s[i + 1..];
      assert ([s[..i]] + rest)[1..] == rest;
      [s[..i]] + rest
  }

  /** strings.Join. */
  function Join(parts: seq<string>, sep: string): string {
    if |parts| == 0 then ""
    else if |parts| == 1 then parts[0]
    else parts[0] + sep + Join(parts[1..], sep)
  }

  lemma SplitStep(head: string, rest: string, sep: char)
    requires sep !in head
    ensures Split(head + [sep] + rest, sep) == [head] + Split(rest, sep)
  {
    var s := head + [sep] + rest;
    assert s[..|head|] == head && s[|head|] == sep && s[|head| + 1..] == rest;
    IndexIs(s, sep, |head|);
  }

  /** The parts one after another. */
  function Concat(parts: seq<string>): string {
    if parts == [] then "" else parts[0] + Concat(parts[1..])
  }

  lemma {:induction false} ConcatTake(parts: seq<string>, i: nat)
    requires i < |parts|
    ensures Concat(parts[..i + 1]) == Concat(parts[..i]) + parts[i]
  {
    if i == 0 {
      assert parts[..1] == [parts[0]];
      assert Concat([parts[0]]) == parts[0] + Concat([]);
    } else {
      ConcatTake(parts[1..], i - 1);
      assert parts[..i + 1][1..] == parts[1..][..i] && parts[..i][1..] == parts[1..][..i - 1];
    }
  }

  /** Splitting a joined list of separator-free parts gives the list back. */
  lemma {:induction false} SplitJoin(parts: seq<string>, sep: char)
    requires |parts| >= 1
    requires forall p :: p in parts ==> sep !in p
    ensures Split(Join(parts, [sep]), sep) == parts
  {
    var s := Join(parts, [sep]);
    if |parts| == 1 {
      assert s == parts[0];
    } else {
      var rest := Join(parts[1..], [sep]);
      SplitJoin(parts[1..], sep);
      SplitStep(parts[0], rest, sep);
      assert s == parts[0] + [sep] + rest;
      assert parts == [parts[0]] + parts[1..];
    }
  }

  lemma Assoc4(a: string, b: string, c: string, d: string, e: string)
    ensures a + b + (c + d + e) == (a + b + c) + d + e
  {
  }

  lemma {:induction false} JoinConcat(x: seq<string>, y: seq<string>, sep: string)
    requires x != [] && y != []
    ensures Join(x + y, sep) == Join(x, sep) + sep + Join(y, sep)
  {
    if |x| == 1 {
      assert (x + y)[1..] == y;
    } else {
      assert (x + y)[0] == x[0] && (x + y)[1..] == x[1..] + y;
      JoinConcat(x[1..], y, sep);
      Assoc4(x[0], sep, Join(x[1..], sep), sep, Join(y, sep));
    }
  }

  /** Splitting two texts joined by the separator splits each. */
  lemma SplitConcat(a: string, b: string, sep: char)
    ensures Split(a + [sep] + b, sep) == Split(a, sep) + Split(b, sep)
  {
    var x, y := Split(a, sep), Split(b, sep);
    JoinConcat(x, y, [sep]);
    assert forall p :: p in x + y ==> p in x || p in y;
    SplitJoin(x + y, sep);
  }

  /** Byte-wise string order, the order of sort.Strings. */
  predicate Before(a: string, b: string) {
    if a == "" then b != ""
    else if b == "" then false
    else a[0] < b[0] || (a[0] == b[0] && Before(a[1..], b[1..]))
  }

  lemma {:induction false} BeforeTotal(a: string, b: string)
    ensures a == b || Before(a, b) || Before(b, a)
    ensures !(Before(a, b) && Before(b, a)) && !Before(a, a)
  {
    if a != "" && b != "" {
      BeforeTotal(a[1..], b[1..]);
      assert a == [a[0]] + a[1..] && b == [b[0]] + b[1..];
    }
    if a != "" {
      BeforeTotal(a[1..], a[1..]);
    }
  }

  lemma {:induction false} BeforeTransitive(a: string, b: string, c: string)
    requires Before(a, b) && Before(b, c)
    ensures Before(a, c)
  {
    if a != "" && a[0] == b[0] == c[0] {
      BeforeTransitive(a[1..], b[1..], c[1..]);
    }
  }

  ghost predicate Sorted(keys: seq<string>) {
    forall i, j :: 0 <= i < j < |keys| ==> Before(keys[i], keys[j])
  }

  /** Inserts k into a sorted list: one step of sort.Strings over distinct keys. */
  method Insert(keys: seq<string>, k: string) returns (r: seq<string>)
    requires Sorted(keys) && k !in keys
    ensures Sorted(r)
    ensures forall x :: x in r <==> x == k || x in keys
  {
    var i := 0;
    while i < |keys| && Before(keys[i], k)
      invariant 0 <= i <= |keys|
      invariant forall j :: 0 <= j < i ==> Before(keys[j], k)
    {
      i := i + 1;
    }
    r := keys[..i] + [k] + keys[i..];
    forall j | i <= j < |keys| ensures Before(k, keys[j]) {
      BeforeTotal(keys[i], k);
      if i < j {
        BeforeTransitive(k, keys[i], keys[j]);
      }
    }
    assert forall x :: x in keys ==> x in keys[..i] || x in keys[i..];
  }

  /** The keys of a Go map, collected in map order and put through sort.Strings. */
  method SortKeys(keys: set<string>) returns (r: seq<string>)
    ensures Sorted(r)
    ensures forall k :: k in r <==> k in keys
  {
    r := [];
    var todo := keys;
    while todo != {}
      invariant todo <= keys && Sorted(r)
      invariant forall k :: k in r <==> k in keys - todo
      decreases |todo|
    {
      var k :| k in todo;
      todo := todo - {k};
      r := Insert(r, k);
    }
  }

  /** A sorted list is fixed by its members. */
  lemma {:induction false} SortedUnique(a: seq<string>, b: seq<string>)
    requires Sorted(a) && Sorted(b)
    requires forall k :: k in a <==> k in b
    ensures a == b
  {
    if a == [] {
      assert forall j :: 0 <= j < |b| ==> b[j] in b;
    } else {
      assert a[0] in b;
      var j :| 0 <= j < |b| && b[j] == a[0];
      assert b[0] in a;
      var i :| 0 <= i < |a| && a[i] == b[0];
      BeforeTotal(a[0], b[0]);
      assert a[0] == b[0];
      BeforeTotal(a[0], a[0]);
      assert a == [a[0]] + a[1..] && b == [b[0]] + b[1..];
      assert a[0] !in a[1..] && b[0] !in b[1..];
      forall k ensures k in a[1..] <==> k in b[1..] {
        assert k in a <==> k == a[0] || k in a[1..];
        assert k in b <==> k == b[0] || k in b[1..];
      }
      SortedUnique(a[1..], b[1..]);
    }
  }
}
