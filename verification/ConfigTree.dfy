/** The custom configuration tree: nested mutable maps under "custom" in pkg/config/domain/domain.go.

    The tree is first given as a value, with set, get and unset as functions on it. ConfigHeap ties the code's
    shared, mutable map objects to that value. */
module ConfigTree {
  import opened Strings

  /** A value that is not a map, as formatValue shows it: its text and the name of its type. */
  datatype Scalar = Scalar(text: string, kind: string)

  datatype Value = Leaf(scalar: Scalar) | Node(entries: map<string, Value>)

  type Tree = map<string, Value>

  type Path = seq<string>

  function Lookup(m: Tree, path: Path): Option<Value>
    decreases |path|
  {
    if path == [] || path[0] !in m then None
    else if |path| == 1 then Some(m[path[0]])
    else
      match m[path[0]]
      case Leaf(_) => None
      case Node(sub) => Lookup(sub, path[1..])
  }

  /** The map a key holds; a missing key or a scalar gives way to an empty map. */
  function SubTree(m: Tree, key: string): Tree {
    if key in m && m[key].Node? then m[key].entries else map[]
  }

  function SetAt(m: Tree, path: Path, v: Value): Tree
    decreases |path|
  {
    if path == [] then m
    else if |path| == 1 then m[path[0] := v]
    else m[path[0] := Node(SetAt(SubTree(m, path[0]), path[1..], v))]
  }

  function UnsetAt(m: Tree, path: Path): Tree
    decreases |path|
  {
    if path == [] then m
    else if |path| == 1 then m - {path[0]}
    else if path[0] in m && m[path[0]].Node? then m[path[0] := Node(UnsetAt(m[path[0]].entries, path[1..]))]
    else m
  }

  // ----- set and unset, seen from every path

  /** After a set, for every path q: the path itself holds the value, paths through it hold nothing, paths on
      the way to it hold maps, and every other path is as before, also where a scalar gave way to a map. */
  lemma {:induction false} SetSeen(m: Tree, path: Path, s: Scalar, q: Path)
    requires path != []
    ensures
      var after := Lookup(SetAt(m, path, Leaf(s)), q);
      if q == path then after == Some(Leaf(s))
      else if path < q then after == None
      else if q < path && q != [] then after.Some? && after.value.Node?
      else after == Lookup(m, q)
    decreases |path|
  {
    if |path| > 1 && q != [] && q[0] == path[0] {
      var sub := SubTree(m, path[0]);
      assert HeadAndRest(path) && HeadAndRest(q);
      SetSeen(sub, path[1..], s, q[1..]);
      assert path[1..] < q[1..] <==> path < q;
      assert q[1..] < path[1..] <==> q < path;
    } else if |path| == 1 && q != [] {
      assert path == [path[0]];
      assert q[0] == path[0] ==> path <= q;
    }
  }

  /** A nonempty path is its first key and the rest. */
  predicate HeadAndRest(path: Path)
    requires path != []
  {
    path == [path[0]] + path[1..]
  }

  /** After an unset nothing is found at the path or below it; a map on the way to it is still a map, and every
      other path is as before. */
  lemma {:induction false} UnsetSeen(m: Tree, path: Path, q: Path)
    requires path != []
    ensures
      var before, after := Lookup(m, q), Lookup(UnsetAt(m, path), q);
      if path <= q then after == None
      else if q < path && before.Some? && before.value.Node? then after.Some? && after.value.Node?
      else after == before
    decreases |path|
  {
    if |path| > 1 && q != [] && q[0] == path[0] {
      assert HeadAndRest(path) && HeadAndRest(q);
      if path[0] in m && m[path[0]].Node? {
        UnsetSeen(m[path[0]].entries, path[1..], q[1..]);
      }
      assert path[1..] <= q[1..] <==> path <= q;
      assert q[1..] < path[1..] <==> q < path;
    } else if |path| == 1 && q != [] {
      assert path == [path[0]];
      assert q[0] == path[0] <==> path <= q;
    }
  }

  /** There is nothing at the path, and what it goes into is a map. */
  predicate Free(m: Tree, path: Path)
    requires path != []
  {
    && Lookup(m, path) == None
    && (|path| > 1 ==>
          var parent := Lookup(m, path[..|path| - 1]);
          parent.Some? && parent.value.Node?)
  }

  lemma FreeBelow(m: Tree, path: Path)
    requires |path| > 1
    ensures Free(m, path) <==> path[0] in m && m[path[0]].Node? && Free(m[path[0]].entries, path[1..])
  {
    var parent := path[..|path| - 1];
    assert parent[0] == path[0] && parent[1..] == path[1..][..|path[1..]| - 1];
  }

  /** Unsetting what was just set gives the tree back if and only if the path was free. */
  lemma {:induction false} UnsetUndoesSetIff(m: Tree, path: Path, v: Value)
    requires path != []
    ensures UnsetAt(SetAt(m, path, v), path) == m <==> Free(m, path)
    decreases |path|
  {
    var key, back := path[0], UnsetAt(SetAt(m, path, v), path);
    if |path| == 1 {
      assert key !in back;
    } else {
      FreeBelow(m, path);
      UnsetUndoesSetIff(SubTree(m, key), path[1..], v);
      assert back == m[key := Node(UnsetAt(SetAt(SubTree(m, key), path[1..], v), path[1..]))];
    }
  }

  // ----- paths as keys

  /** strings.ToLower, as far as it decides whether a string is one of the keywords below: ASCII letters, and
      the two other runes whose lower case is an ASCII letter. */
  function LowerRune(c: char): char {
    if 'A' <= c <= 'Z' then c - 'A' + 'a' else if c == '\U{0130}' then 'i' else if c == '\U{212A}' then 'k' else c
  }

  function Lower(s: string): string {
    if s == "" then "" else [LowerRune(s[0])] + Lower(s[1..])
  }

  function Cleaned(parts: seq<string>): Path {
    if parts == [] then []
    else
      var last := TrimSpace(parts[|parts| - 1]);
      Cleaned(parts[..|parts| - 1]) + if last == "" then [] else [last]
  }

  function Aliased(parts: Path): Path {
    if |parts| == 1 && Lower(parts[0]) == "server" then ["server", "url"]
    else if |parts| == 1 && Lower(parts[0]) == "staff" then ["staff", "url"]
    else if |parts| == 2 && Lower(parts[0]) == "defaults" && Lower(parts[1]) == "expirydays"
    then ["defaults", "expiry_days"]
    else if |parts| == 2 && Lower(parts[0]) == "assets" && Lower(parts[1]) == "autopull" then ["assets", "auto_pull"]
    else parts
  }

  function Normalized(path: string): Path {
    Aliased(Cleaned(Strings.Split(path, '.')))
  }

  /** c is the letter, its capital, or one of the two other runes whose lower case it is. */
  predicate IsLetter(c: char, letter: char) {
    || c == letter
    || ('a' <= letter <= 'z' && 'A' <= c <= 'Z' && c - 'A' == letter - 'a')
    || (letter == 'i' && c == '\U{0130}') || (letter == 'k' && c == '\U{212A}')
  }

  /** The name is the word, in any case. */
  predicate Spells(name: string, word: string) {
    |name| == |word| && forall i :: 0 <= i < |name| ==> IsLetter(name[i], word[i])
  }

  lemma {:induction false} LowerIff(name: string, word: string)
    requires forall i :: 0 <= i < |word| ==> 'a' <= word[i] <= 'z'
    ensures Lower(name) == word <==> Spells(name, word)
  {
    if name != "" && word != "" {
      var rest, tail := name[1..], word[1..];
      LowerIff(rest, tail);
      assert Lower(name) == [LowerRune(name[0])] + Lower(rest) && word == [word[0]] + tail;
      assert Lower(name) == word <==> LowerRune(name[0]) == word[0] && Lower(rest) == tail by {
        assert ([LowerRune(name[0])] + Lower(rest))[1..] == Lower(rest);
      }
      assert Spells(name, word) <==> IsLetter(name[0], word[0]) && Spells(rest, tail) by {
        assert forall i :: 0 < i < |name| ==> name[i] == rest[i - 1];
        assert forall i :: 0 < i < |word| ==> word[i] == tail[i - 1];
      }
    }
  }

  /** Two short names, in any case, lead to the addresses of their servers; */
  lemma AliasesOfServers(name: string)
    ensures Spells(name, "server") ==> Aliased([name]) == ["server", "url"]
    ensures Spells(name, "staff") ==> Aliased([name]) == ["staff", "url"]
    ensures !Spells(name, "server") && !Spells(name, "staff") ==> Aliased([name]) == [name]
  {
    LowerIff(name, "server");
    LowerIff(name, "staff");
    assert |"server"| != |"staff"|;
  }

  /** and two settings may be written as one word. */
  lemma AliasesOfSettings(group: string, name: string)
    ensures Spells(group, "defaults") && Spells(name, "expirydays") ==>
      Aliased([group, name]) == ["defaults", "expiry_days"]
    ensures Spells(group, "assets") && Spells(name, "autopull") ==> Aliased([group, name]) == ["assets", "auto_pull"]
    ensures
      || (Spells(group, "defaults") && Spells(name, "expirydays"))
      || (Spells(group, "assets") && Spells(name, "autopull"))
      || Aliased([group, name]) == [group, name]
  {
    LowerIff(group, "defaults");
    LowerIff(name, "expirydays");
    LowerIff(group, "assets");
    LowerIff(name, "autopull");
    assert |"defaults"| != |"assets"|;
  }

  method NormalizePath(path: string) returns (r: Path)
    ensures r == Normalized(path)
  {
    var parts := Strings.Split(path, '.');
    var cleanParts: Path := [];
    for i := 0 to |parts|
      invariant cleanParts == Cleaned(parts[..i])
    {
      assert parts[..i + 1][..i] == parts[..i];
      var p := TrimSpace(parts[i]);
      if p != "" {
        cleanParts := cleanParts + [p];
      }
    }
    assert parts[..|parts|] == parts;
    if |cleanParts| == 1 {
      var name := Lower(cleanParts[0]);
      if name == "server" {
        return ["server", "url"];
      } else if name == "staff" {
        return ["staff", "url"];
      }
    }
    if |cleanParts| == 2 {
      if Lower(cleanParts[0]) == "defaults" && Lower(cleanParts[1]) == "expirydays" {
        return ["defaults", "expiry_days"];
      }
      if Lower(cleanParts[0]) == "assets" && Lower(cleanParts[1]) == "autopull" {
        return ["assets", "auto_pull"];
      }
    }
    return cleanParts;
  }

  /** A key that survives being written into a dotted path. */
  predicate PlainKey(k: string) {
    k != "" && IsTrimmed(k) && '.' !in k
  }

  predicate PlainPath(path: Path) {
    forall k :: k in path ==> PlainKey(k)
  }

  lemma {:induction false} CleanedPlain(parts: seq<string>)
    requires PlainPath(parts)
    ensures Cleaned(parts) == parts
  {
    if parts != [] {
      var init, last := parts[..|parts| - 1], parts[|parts| - 1];
      assert parts == init + [last];
      assert last in parts;
      TrimTrimmed(last);
      assert PlainPath(init) by {
        forall k | k in init ensures PlainKey(k) {
          assert k in parts;
        }
      }
      CleanedPlain(init);
    }
  }

  lemma TrimPlain(s: string)
    requires '.' !in s && TrimSpace(s) != ""
    ensures PlainKey(TrimSpace(s))
  {
    var left, right := TrimSplits(s);
    var core := TrimSpace(s);
    assert forall i :: 0 <= i < |core| ==> core[i] == s[|left| + i];
  }

  /** Cleaned parts are plain, whatever the path was. */
  lemma {:induction false} CleanedIsPlain(parts: seq<string>)
    requires forall p :: p in parts ==> '.' !in p
    ensures PlainPath(Cleaned(parts))
  {
    if parts != [] {
      var init, last := parts[..|parts| - 1], parts[|parts| - 1];
      assert parts == init + [last];
      assert last in parts && forall p :: p in init ==> p in parts;
      CleanedIsPlain(init);
      if TrimSpace(last) != "" {
        TrimPlain(last);
      }
    }
  }

  const CUSTOM := "custom"

  lemma LowerLetter(c: char, rest: string)
    requires LowerRune(c) == c && Lower(rest) == rest
    ensures Lower([c] + rest) == [c] + rest
  {
    assert ([c] + rest)[1..] == rest;
  }

  lemma CustomIsPlain()
    ensures PlainKey(CUSTOM) && Lower(CUSTOM) == CUSTOM
  {
    LowerLetter('m', "");
    LowerLetter('o', ['m'] + "");
    LowerLetter('t', ['o'] + (['m'] + ""));
    LowerLetter('s', ['t'] + (['o'] + (['m'] + "")));
    LowerLetter('u', ['s'] + (['t'] + (['o'] + (['m'] + ""))));
    LowerLetter('c', ['u'] + (['s'] + (['t'] + (['o'] + (['m'] + "")))));
    assert CUSTOM == ['c'] + (['u'] + (['s'] + (['t'] + (['o'] + (['m'] + "")))));
  }

  lemma CustomNotAliased(path: Path)
    ensures Aliased([CUSTOM] + path) == [CUSTOM] + path
  {
    CustomIsPlain();
    assert ([CUSTOM] + path)[0] == CUSTOM && CUSTOM[0] == 'c';
    assert "server"[0] == 's' && "staff"[0] == 's' && "defaults"[0] == 'd' && "assets"[0] == 'a';
  }

  lemma NotAliased(parts: Path, path: Path)
    requires Aliased(parts) == [CUSTOM] + path
    ensures parts == [CUSTOM] + path
  {
    assert Aliased(parts)[0] == CUSTOM && CUSTOM[0] == 'c';
    assert "server"[0] == 's' && "staff"[0] == 's' && "defaults"[0] == 'd' && "assets"[0] == 'a';
  }

  lemma PlainReadsBack(full: Path)
    requires full != [] && PlainPath(full)
    ensures Cleaned(Strings.Split(Join(full, "."), '.')) == full
  {
    SplitJoin(full, '.');
    CleanedPlain(full);
  }

  lemma PrefixPlain(path: Path)
    ensures PlainPath([CUSTOM] + path) <==> PlainPath(path)
  {
    CustomIsPlain();
    assert forall k :: k in [CUSTOM] + path <==> k == CUSTOM || k in path;
  }

  /** The key a listing shows for a custom path leads back to exactly that path if and only if every key on it
      is plain: not empty, without a dot, and without white space at either end. */
  lemma ReadsBackIff(path: Path)
    requires path != []
    ensures Normalized(Join([CUSTOM] + path, ".")) == [CUSTOM] + path <==> PlainPath(path)
  {
    var full := [CUSTOM] + path;
    PrefixPlain(path);
    if PlainPath(path) {
      PlainReadsBack(full);
      CustomNotAliased(path);
    }
    var cleaned := Cleaned(Strings.Split(Join(full, "."), '.'));
    CleanedIsPlain(Strings.Split(Join(full, "."), '.'));
    if Aliased(cleaned) == full {
      NotAliased(cleaned, path);
    }
  }

  /** A key with a dot is listed under a key that leads elsewhere. */
  lemma DottedKeyLost()
    ensures Normalized(Join([CUSTOM, "a.b"], ".")) != [CUSTOM, "a.b"]
  {
    assert "a.b"[1] == '.' && !PlainKey("a.b");
    assert "a.b" in ["a.b"] && [CUSTOM] + ["a.b"] == [CUSTOM, "a.b"];
    ReadsBackIff(["a.b"]);
  }

  // ----- listings

  /** The order of paths: by the first key that differs. */
  predicate PathBefore(p: Path, q: Path)
    decreases |p|
  {
    if p == [] then q != []
    else if q == [] then false
    else Before(p[0], q[0]) || (p[0] == q[0] && PathBefore(p[1..], q[1..]))
  }

  lemma {:induction false} PathBeforeTotal(p: Path, q: Path)
    ensures p == q || PathBefore(p, q) || PathBefore(q, p)
    ensures !(PathBefore(p, q) && PathBefore(q, p)) && !PathBefore(p, p)
    decreases |p|
  {
    if p != [] {
      BeforeTotal(p[0], p[0]);
      PathBeforeTotal(p[1..], p[1..]);
      if q != [] {
        BeforeTotal(p[0], q[0]);
        PathBeforeTotal(p[1..], q[1..]);
        assert HeadAndRest(p) && HeadAndRest(q);
      }
    }
  }

  ghost predicate Increasing(paths: seq<Path>) {
    forall i, j :: 0 <= i < j < |paths| ==> PathBefore(paths[i], paths[j])
  }

  predicate IsLeaf(m: Tree, path: Path) {
    var found := Lookup(m, path);
    found.Some? && found.value.Leaf?
  }

  /** The paths of all leaves, each once, in path order. */
  ghost predicate Lists(m: Tree, paths: seq<Path>) {
    && Increasing(paths) && (forall p :: p in paths <==> IsLeaf(m, p))
    && forall i :: 0 <= i < |paths| ==> IsLeaf(m, paths[i])
  }

  lemma {:induction false} IncreasingUnique(a: seq<Path>, b: seq<Path>)
    requires Increasing(a) && Increasing(b) && forall p :: p in a <==> p in b
    ensures a == b
    decreases |a|
  {
    if a == [] {
      assert forall j :: 0 <= j < |b| ==> b[j] in b;
    } else {
      assert a[0] in b;
      var j :| 0 <= j < |b| && b[j] == a[0];
      assert b[0] in a;
      var i :| 0 <= i < |a| && a[i] == b[0];
      PathBeforeTotal(a[0], b[0]);
      assert a[0] == b[0];
      HeadOnce(a);
      HeadOnce(b);
      IncreasingUnique(a[1..], b[1..]);
      assert a == [a[0]] + a[1..] && b == [b[0]] + b[1..];
    }
  }

  lemma HeadOnce(a: seq<Path>)
    requires a != [] && Increasing(a)
    ensures Increasing(a[1..])
    ensures forall p :: p in a[1..] <==> p in a && p != a[0]
  {
    PathBeforeTotal(a[0], a[0]);
    assert a == [a[0]] + a[1..];
    forall p | p in a[1..] ensures p != a[0] {
      var i :| 0 <= i < |a[1..]| && a[1..][i] == p;
      assert a[i + 1] == p;
    }
  }

  datatype Entry = Entry(key: string, scalar: Scalar)

  function EntryAt(prefix: string, m: Tree, path: Path): Entry
    requires IsLeaf(m, path)
  {
    Entry(prefix + "." + Join(path, "."), Lookup(m, path).value.scalar)
  }

  /** A listing as it is shown, under a prefix. */
  ghost function Rendered(prefix: string, m: Tree, paths: seq<Path>): seq<Entry>
    requires forall i :: 0 <= i < |paths| ==> IsLeaf(m, paths[i])
  {
    seq(|paths|, i requires 0 <= i < |paths| => EntryAt(prefix, m, paths[i]))
  }

  /** The entries of all leaves, under a prefix. */
  ghost predicate IsListing(prefix: string, m: Tree, entries: seq<Entry>) {
    exists paths :: Lists(m, paths) && entries == Rendered(prefix, m, paths)
  }

  /** There is one listing only, so the order Go maps are iterated in does not show. */
  lemma ListingUnique(prefix: string, m: Tree, a: seq<Entry>, b: seq<Entry>)
    requires IsListing(prefix, m, a) && IsListing(prefix, m, b)
    ensures a == b
  {
    var pa :| Lists(m, pa) && a == Rendered(prefix, m, pa);
    var pb :| Lists(m, pb) && b == Rendered(prefix, m, pb);
    IncreasingUnique(pa, pb);
  }

  /** The listing so far: the leaves below the first i keys. */
  ghost predicate ListsUpTo(m: Tree, keys: seq<string>, i: nat, paths: seq<Path>) {
    && i <= |keys| && Increasing(paths)
    && (forall p :: p in paths <==> IsLeaf(m, p) && p[0] in keys[..i])
    && forall j :: 0 <= j < |paths| ==> IsLeaf(m, paths[j])
  }

  function Under(k: string, paths: seq<Path>): seq<Path> {
    seq(|paths|, i requires 0 <= i < |paths| => [k] + paths[i])
  }

  lemma LeafUnder(m: Tree, k: string, p: Path)
    requires k in m
    ensures IsLeaf(m, [k] + p) <==> if p == [] then m[k].Leaf? else m[k].Node? && IsLeaf(m[k].entries, p)
    ensures p != [] && m[k].Node? ==> Lookup(m, [k] + p) == Lookup(m[k].entries, p)
  {
    assert ([k] + p)[1..] == p;
  }

  /** What the next key adds to the listing. */
  ghost predicate Adds(m: Tree, k: string, more: seq<Path>, sub: seq<Path>) {
    && k in m
    && match m[k]
       case Leaf(_) => more == [[k]]
       case Node(entries) => Lists(entries, sub) && more == Under(k, sub)
  }

  lemma AddsExactly(m: Tree, k: string, more: seq<Path>, sub: seq<Path>)
    requires Adds(m, k, more, sub)
    ensures Increasing(more)
    ensures forall p :: p in more <==> IsLeaf(m, p) && p[0] == k
  {
    BeforeTotal(k, k);
    forall p | IsLeaf(m, p) && p[0] == k ensures p in more {
      assert HeadAndRest(p);
      LeafUnder(m, k, p[1..]);
      if m[k].Node? {
        var j :| 0 <= j < |sub| && sub[j] == p[1..];
        assert more[j] == p;
      } else {
        assert p[1..] == [] && p == [k];
      }
    }
    forall p | p in more ensures IsLeaf(m, p) && p[0] == k {
      if m[k].Node? {
        var j :| 0 <= j < |more| && more[j] == p;
        assert p == [k] + sub[j] && sub[j] in sub;
        LeafUnder(m, k, sub[j]);
      }
    }
    if m[k].Node? {
      forall i, j | 0 <= i < j < |more| ensures PathBefore(more[i], more[j]) {
        assert more[i][1..] == sub[i] && more[j][1..] == sub[j];
      }
    }
  }

  lemma ListsNext(m: Tree, keys: seq<string>, i: nat, paths: seq<Path>, more: seq<Path>, sub: seq<Path>)
    requires Sorted(keys) && i < |keys| && ListsUpTo(m, keys, i, paths) && Adds(m, keys[i], more, sub)
    ensures ListsUpTo(m, keys, i + 1, paths + more)
    ensures forall j :: 0 <= j < |more| ==> IsLeaf(m, more[j])
  {
    var k := keys[i];
    AddsExactly(m, k, more, sub);
    assert forall j :: 0 <= j < |more| ==> more[j] in more;
    assert keys[..i + 1] == keys[..i] + [k];
    forall a, b | 0 <= a < |paths| && 0 <= b < |more| ensures PathBefore(paths[a], more[b]) {
      assert paths[a] in paths && more[b] in more;
      var j :| 0 <= j < i && keys[j] == paths[a][0];
      assert Before(keys[j], k);
    }
  }

  lemma RenderedAppend(prefix: string, m: Tree, paths: seq<Path>, more: seq<Path>, entries: seq<Entry>)
    requires forall i :: 0 <= i < |paths| ==> IsLeaf(m, paths[i])
    requires forall i :: 0 <= i < |more| ==> IsLeaf(m, more[i])
    ensures forall i :: 0 <= i < |paths + more| ==> IsLeaf(m, (paths + more)[i])
    ensures entries + Rendered(prefix, m, paths + more) ==
      entries + Rendered(prefix, m, paths) + Rendered(prefix, m, more)
  {
  }

  lemma RenderedUnder(prefix: string, m: Tree, k: string, sub: seq<Path>)
    requires k in m && m[k].Node? && forall i :: 0 <= i < |sub| ==> IsLeaf(m[k].entries, sub[i])
    ensures forall i :: 0 <= i < |sub| ==> IsLeaf(m, Under(k, sub)[i])
    ensures Rendered(prefix, m, Under(k, sub)) == Rendered(prefix + "." + k, m[k].entries, sub)
  {
    forall i | 0 <= i < |sub|
      ensures IsLeaf(m, Under(k, sub)[i])
      ensures EntryAt(prefix, m, Under(k, sub)[i]) == EntryAt(prefix + "." + k, m[k].entries, sub[i])
    {
      LeafUnder(m, k, sub[i]);
      JoinUnder(prefix, k, sub[i]);
    }
  }

  lemma JoinUnder(prefix: string, k: string, p: Path)
    requires p != []
    ensures prefix + "." + Join([k] + p, ".") == prefix + "." + k + "." + Join(p, ".")
  {
    assert ([k] + p)[1..] == p;
    assert prefix + "." + (k + "." + Join(p, ".")) == prefix + "." + k + "." + Join(p, ".");
  }

  // ----- the commands on "custom" keys

  datatype Answer =
    | Found(entry: Entry)       // a scalar, under its canonical key
    | FoundMap                  // a whole map, shown in Go's own format
    | NotFound | EmptyPath
    | RootNamespace             // "custom" itself cannot be read or set
    | Done                      // a set or unset that was carried out
    | OtherDomain               // a path outside "custom"

  /** What every command makes of its path before it looks at the tree; Done when it goes on. */
  function Route(path: string): Answer {
    var parts := Normalized(path);
    if parts == [] then EmptyPath
    else if Lower(parts[0]) != CUSTOM then OtherDomain
    else if |parts| == 1 then RootNamespace
    else Done
  }

  function GetAnswer(m: Tree, path: string): Answer {
    if Route(path) == RootNamespace then NotFound
    else if Route(path) != Done then Route(path)
    else
      var subparts := Normalized(path)[1..];
      match Lookup(m, subparts)
      case None => NotFound
      case Some(Leaf(s)) => Found(Entry("custom." + Join(subparts, "."), s))
      case Some(Node(_)) => FoundMap
  }

  /** A path without a name is refused; one that does not begin with custom, in any case, is for another part of the
      configuration; custom alone cannot be set or read; everything below it can. */
  lemma RouteMeans(path: string)
    ensures
      var parts := Normalized(path);
      if parts == [] then Route(path) == EmptyPath && forall m :: GetAnswer(m, path) == EmptyPath
      else if !Spells(parts[0], "custom") then
        Route(path) == OtherDomain && forall m :: GetAnswer(m, path) == OtherDomain
      else if |parts| == 1 then Route(path) == RootNamespace && forall m :: GetAnswer(m, path) == NotFound
      else Route(path) == Done
  {
    if Normalized(path) != [] {
      LowerIff(Normalized(path)[0], "custom");
    }
  }

  /** What was just set is read, under its canonical key, and what was just unset is not found; a key that leads to a
      map shows that map. */
  lemma GetAfter(m: Tree, path: string, s: Scalar)
    requires Route(path) == Done
    ensures
      var parts := Normalized(path)[1..];
      && GetAnswer(SetAt(m, parts, Leaf(s)), path) == Found(Entry("custom." + Join(parts, "."), s))
      && GetAnswer(UnsetAt(m, parts), path) == NotFound
      && (Lookup(m, parts).Some? && Lookup(m, parts).value.Node? ==> GetAnswer(m, path) == FoundMap)
  {
    var parts := Normalized(path)[1..];
    SetSeen(m, parts, s, parts);
    UnsetSeen(m, parts, parts);
  }

  /** Reading the key of a listed entry gives the same entry back, for plain paths. */
  lemma EntryReadsBack(m: Tree, path: Path)
    requires IsLeaf(m, path) && PlainPath(path)
    ensures GetAnswer(m, EntryAt(CUSTOM, m, path).key) == Found(EntryAt(CUSTOM, m, path))
  {
    CustomIsPlain();
    ReadsBackIff(path);
    var full := [CUSTOM] + path;
    assert full[1..] == path && full[0] == CUSTOM;
    assert Join(full, ".") == CUSTOM + "." + Join(path, ".");
    assert CUSTOM + "." == "custom.";
  }

  ghost predicate PlainTree(m: Tree) {
    forall p :: IsLeaf(m, p) ==> PlainPath(p)
  }

  /** Every entry listed for a tree with plain paths is what reading its key gives. */
  lemma ListingReadsBack(m: Tree, entries: seq<Entry>, i: nat)
    requires PlainTree(m) && IsListing(CUSTOM, m, entries) && i < |entries|
    ensures GetAnswer(m, entries[i].key) == Found(entries[i])
  {
    var paths :| Lists(m, paths) && entries == Rendered(CUSTOM, m, paths);
    assert IsLeaf(m, paths[i]);
    EntryReadsBack(m, paths[i]);
  }

  lemma NormalizedPlain(path: string)
    requires Route(path) == Done
    ensures PlainPath(Normalized(path)[1..])
  {
    var parts := Normalized(path);
    CleanedIsPlain(Strings.Split(path, '.'));
    NotSpecial(Cleaned(Strings.Split(path, '.')));
    assert forall k :: k in parts[1..] ==> k in parts;
  }

  lemma NotSpecial(parts: Path)
    requires Aliased(parts) != [] && Lower(Aliased(parts)[0]) == CUSTOM
    ensures Aliased(parts) == parts
  {
    var first := Aliased(parts)[0];
    LowerHead(first);
    assert CUSTOM[0] == 'c' && "server"[0] == 's' && "staff"[0] == 's' && "defaults"[0] == 'd' && "assets"[0] == 'a';
  }

  lemma LowerHead(s: string)
    requires Lower(s) == CUSTOM
    ensures s != "" && LowerRune(s[0]) == 'c'
  {
    assert Lower(s)[0] == 'c';
  }

  /** A tree that was only ever changed by set and unset commands lists every entry under a key that reads it
      back: both keep all paths plain. */
  lemma CommandsKeepPlain(m: Tree, path: string, s: Scalar)
    requires PlainTree(m) && Route(path) == Done
    ensures PlainTree(SetAt(m, Normalized(path)[1..], Leaf(s)))
    ensures PlainTree(UnsetAt(m, Normalized(path)[1..]))
  {
    var parts := Normalized(path)[1..];
    NormalizedPlain(path);
    forall q | IsLeaf(SetAt(m, parts, Leaf(s)), q) ensures PlainPath(q) {
      SetSeen(m, parts, s, q);
    }
    forall q | IsLeaf(UnsetAt(m, parts), q) ensures PlainPath(q) {
      UnsetSeen(m, parts, q);
    }
  }
}
