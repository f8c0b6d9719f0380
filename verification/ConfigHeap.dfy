/** The custom tree as the code keeps it: map objects that refer to map objects and are changed in place. */
module ConfigHeap {
  import opened Strings
  import opened ConfigTree

  datatype Slot = Held(scalar: Scalar) | Sub(m: MapObject)

  /** A Go map. A map other than the root is made below a map that exists already, and stays there. */
  class MapObject {
    var entries: map<string, Slot>
    ghost const birth: nat
    ghost const parent: MapObject?
    ghost const key: string

    constructor (ghost birth: nat, ghost parent: MapObject?, ghost key: string)
      ensures entries == map[] && this.birth == birth && this.parent == parent && this.key == key
    {
      entries, this.birth, this.parent, this.key := map[], birth, parent, key;
    }
  }

  /** What a set of map objects holds at one moment. */
  type Heap = map<MapObject, map<string, Slot>>

  ghost function Snapshot(nodes: set<MapObject>): Heap
    reads nodes
  {
    map n | n in nodes :: n.entries
  }

  /** The heap is a forest: every map is referred to from its birthplace only. */
  ghost predicate Forest(h: Heap, limit: nat) {
    && (forall n :: n in h ==> n.birth < limit)
    && forall n, k :: n in h && k in h[n] && h[n][k].Sub? ==>
         h[n][k].m in h && n.birth < h[n][k].m.birth && h[n][k].m.parent == n && h[n][k].m.key == k
  }

  /** The tree a map object stands for. */
  ghost function Content(h: Heap, limit: nat, n: MapObject): Tree
    requires Forest(h, limit) && n in h
    decreases limit - n.birth
  {
    map k | k in h[n] :: SlotValue(h, limit, n, k)
  }

  ghost function SlotValue(h: Heap, limit: nat, n: MapObject, k: string): Value
    requires Forest(h, limit) && n in h && k in h[n]
    decreases limit - n.birth, 0
  {
    match h[n][k]
    case Held(s) => Leaf(s)
    case Sub(child) => Node(Content(h, limit, child))
  }

  /** The map object at the end of a path of maps. */
  ghost function Walk(h: Heap, n: MapObject, path: Path): Option<MapObject>
    requires n in h
    requires forall o, k :: o in h && k in h[o] && h[o][k].Sub? ==> h[o][k].m in h
    decreases |path|
  {
    if path == [] then Some(n)
    else if path[0] in h[n] && h[n][path[0]].Sub? then Walk(h, h[n][path[0]].m, path[1..])
    else None
  }

  lemma {:induction false} WalkLast(h: Heap, limit: nat, n: MapObject, path: Path)
    requires Forest(h, limit) && n in h && path != []
    ensures
      var init, k := path[..|path| - 1], path[|path| - 1];
      var parent := Walk(h, n, init);
      && (parent.Some? ==> parent.value in h)
      && Walk(h, n, path) ==
           if parent.Some? && k in h[parent.value] && h[parent.value][k].Sub? then Some(h[parent.value][k].m) else None
    decreases |path|
  {
    var init := path[..|path| - 1];
    if |path| == 1 {
      assert init == [];
    } else {
      assert init[0] == path[0] && init[1..] == path[1..][..|path[1..]| - 1];
      if path[0] in h[n] && h[n][path[0]].Sub? {
        WalkLast(h, limit, h[n][path[0]].m, path[1..]);
      }
    }
  }

  lemma {:induction false} WalkIsYounger(h: Heap, limit: nat, n: MapObject, path: Path)
    requires Forest(h, limit) && n in h && Walk(h, n, path).Some?
    ensures Walk(h, n, path).value in h
    ensures path != [] ==> n.birth < Walk(h, n, path).value.birth
    decreases |path|
  {
    if path != [] {
      WalkIsYounger(h, limit, h[n][path[0]].m, path[1..]);
    }
  }

  /** Only one path leads from a map to a map. */
  lemma {:induction false} OnePath(h: Heap, limit: nat, n: MapObject, p: Path, q: Path)
    requires Forest(h, limit) && n in h
    requires Walk(h, n, p).Some? && Walk(h, n, p) == Walk(h, n, q)
    ensures p == q
    decreases |p|
  {
    WalkIsYounger(h, limit, n, p);
    WalkIsYounger(h, limit, n, q);
    if p != [] && q != [] {
      WalkLast(h, limit, n, p);
      WalkLast(h, limit, n, q);
      OnePath(h, limit, n, p[..|p| - 1], q[..|q| - 1]);
      assert p == p[..|p| - 1] + [p[|p| - 1]] && q == q[..|q| - 1] + [q[|q| - 1]];
    }
  }

  /** The two heaps differ in what one old map holds, and in new maps. */
  ghost predicate DifferAt(h: Heap, h2: Heap, curr: MapObject) {
    h.Keys <= h2.Keys && forall n :: n in h && n != curr ==> h2[n] == h[n]
  }

  /** A map from which the changed one cannot be reached stands for the same tree. */
  lemma {:induction false} Untouched(h: Heap, h2: Heap, limit: nat, n: MapObject, curr: MapObject)
    requires Forest(h, limit) && Forest(h2, limit) && DifferAt(h, h2, curr)
    requires n in h && forall q :: Walk(h, n, q) != Some(curr)
    ensures Content(h2, limit, n) == Content(h, limit, n)
    decreases limit - n.birth
  {
    assert Walk(h, n, []) == Some(n);
    forall k | k in h[n] ensures SlotValue(h2, limit, n, k) == SlotValue(h, limit, n, k) {
      if h[n][k].Sub? {
        var child := h[n][k].m;
        forall q ensures Walk(h, child, q) != Some(curr) {
          assert ([k] + q)[1..] == q;
          assert Walk(h, n, [k] + q) == Walk(h, child, q);
        }
        Untouched(h, h2, limit, child, curr);
      }
    }
  }

  /** The tree with the map at the end of a path replaced. */
  function Graft(m: Tree, path: Path, sub: Tree): Tree
    decreases |path|
  {
    if path == [] then sub else m[path[0] := Node(Graft(SubTree(m, path[0]), path[1..], sub))]
  }

  /** Changing one map object in place replaces its tree in the tree of every map above it, and changes
      nothing beside it. */
  lemma {:induction false} InPlace(h: Heap, h2: Heap, limit: nat, n: MapObject, path: Path, curr: MapObject)
    requires Forest(h, limit) && Forest(h2, limit) && DifferAt(h, h2, curr)
    requires n in h && Walk(h, n, path) == Some(curr)
    ensures curr in h2 && Content(h2, limit, n) == Graft(Content(h, limit, n), path, Content(h2, limit, curr))
    decreases |path|
  {
    if path != [] {
      var key := path[0];
      var child := h[n][key].m;
      WalkIsYounger(h, limit, n, path);
      InPlace(h, h2, limit, child, path[1..], curr);
      forall k | k in h[n] && k != key ensures SlotValue(h2, limit, n, k) == SlotValue(h, limit, n, k) {
        if h[n][k].Sub? {
          Beside(h, limit, n, path, curr, k);
          Untouched(h, h2, limit, h[n][k].m, curr);
        }
      }
      var before, after := Content(h, limit, n), Content(h2, limit, n);
      assert before[key] == SlotValue(h, limit, n, key) == Node(Content(h, limit, child));
      assert after[key] == SlotValue(h2, limit, n, key) == Node(Content(h2, limit, child));
      assert after.Keys == before.Keys;
      assert after == before[key := Node(Content(h2, limit, child))];
    }
  }

  lemma Beside(h: Heap, limit: nat, n: MapObject, path: Path, curr: MapObject, k: string)
    requires Forest(h, limit) && n in h && path != [] && Walk(h, n, path) == Some(curr)
    requires k in h[n] && h[n][k].Sub? && k != path[0]
    ensures forall q :: Walk(h, h[n][k].m, q) != Some(curr)
  {
    forall q | Walk(h, h[n][k].m, q) == Some(curr) ensures false {
      assert ([k] + q)[1..] == q;
      assert Walk(h, n, [k] + q) == Some(curr);
      OnePath(h, limit, n, path, [k] + q);
    }
  }

  // ----- the same steps on the tree

  /** The map at the end of a path of maps. */
  function Below(m: Tree, path: Path): Option<Tree>
    decreases |path|
  {
    if path == [] then Some(m)
    else if path[0] in m && m[path[0]].Node? then Below(m[path[0]].entries, path[1..])
    else None
  }

  lemma {:induction false} WalkContent(h: Heap, limit: nat, n: MapObject, path: Path)
    requires Forest(h, limit) && n in h
    ensures
      var end := Walk(h, n, path);
      && (end.Some? ==> end.value in h)
      && Below(Content(h, limit, n), path) == if end.Some? then Some(Content(h, limit, end.value)) else None
    decreases |path|
  {
    if path != [] && path[0] in h[n] {
      assert Content(h, limit, n)[path[0]] == SlotValue(h, limit, n, path[0]);
      if h[n][path[0]].Sub? {
        WalkContent(h, limit, h[n][path[0]].m, path[1..]);
      }
    }
  }

  lemma {:induction false} SetSplit(m: Tree, p: Path, r: Path, v: Value)
    requires Below(m, p).Some? && r != []
    ensures SetAt(m, p + r, v) == Graft(m, p, SetAt(Below(m, p).value, r, v))
    decreases |p|
  {
    if p == [] {
      assert p + r == r;
    } else {
      assert (p + r)[0] == p[0] && (p + r)[1..] == p[1..] + r;
      SetSplit(m[p[0]].entries, p[1..], r, v);
    }
  }

  lemma {:induction false} UnsetSplit(m: Tree, p: Path, k: string)
    ensures UnsetAt(m, p + [k]) == if Below(m, p).Some? then Graft(m, p, Below(m, p).value - {k}) else m
    decreases |p|
  {
    if p == [] {
      assert p + [k] == [k];
    } else {
      assert (p + [k])[0] == p[0] && (p + [k])[1..] == p[1..] + [k];
      if p[0] in m && m[p[0]].Node? {
        UnsetSplit(m[p[0]].entries, p[1..], k);
      }
    }
  }

  lemma {:induction false} GraftTwice(m: Tree, p: Path, a: Tree, b: Tree)
    ensures Below(Graft(m, p, a), p) == Some(a)
    ensures Graft(Graft(m, p, a), p, b) == Graft(m, p, b)
    decreases |p|
  {
    if p != [] {
      GraftTwice(SubTree(m, p[0]), p[1..], a, b);
    }
  }

  // ----- the steps on the heap

  lemma {:induction false} LimitIsFree(h: Heap, low: nat, high: nat, n: MapObject)
    requires Forest(h, low) && Forest(h, high) && n in h
    ensures Content(h, low, n) == Content(h, high, n)
    decreases low - n.birth
  {
    forall k | k in h[n] ensures SlotValue(h, low, n, k) == SlotValue(h, high, n, k) {
      if h[n][k].Sub? {
        LimitIsFree(h, low, high, h[n][k].m);
      }
    }
  }

  /** A slot of the changed map that was not changed itself stands for the same value. */
  lemma SlotKept(h: Heap, h2: Heap, limit: nat, curr: MapObject, k: string)
    requires Forest(h, limit) && Forest(h2, limit) && DifferAt(h, h2, curr) && curr in h
    requires k in h[curr] && k in h2[curr] && h2[curr][k] == h[curr][k]
    ensures SlotValue(h2, limit, curr, k) == SlotValue(h, limit, curr, k)
  {
    if h[curr][k].Sub? {
      var child := h[curr][k].m;
      forall q ensures Walk(h, child, q) != Some(curr) {
        if Walk(h, child, q).Some? {
          WalkIsYounger(h, limit, child, q);
        }
      }
      Untouched(h, h2, limit, child, curr);
    }
  }

  lemma AssignedContent(h: Heap, h2: Heap, limit: nat, curr: MapObject, key: string, slot: Slot)
    requires Forest(h, limit) && Forest(h2, limit) && DifferAt(h, h2, curr) && curr in h
    requires h2[curr] == h[curr][key := slot]
    ensures Content(h2, limit, curr) == Content(h, limit, curr)[key := SlotValue(h2, limit, curr, key)]
  {
    forall k | k in h[curr] && k != key ensures SlotValue(h2, limit, curr, k) == SlotValue(h, limit, curr, k) {
      SlotKept(h, h2, limit, curr, k);
    }
  }

  lemma RemovedContent(h: Heap, h2: Heap, limit: nat, curr: MapObject, key: string)
    requires Forest(h, limit) && Forest(h2, limit) && DifferAt(h, h2, curr) && curr in h
    requires h2[curr] == h[curr] - {key}
    ensures Content(h2, limit, curr) == Content(h, limit, curr) - {key}
  {
    forall k | k in h[curr] && k != key ensures SlotValue(h2, limit, curr, k) == SlotValue(h, limit, curr, k) {
      SlotKept(h, h2, limit, curr, k);
    }
  }

  lemma {:induction false} WalkKept(h: Heap, h2: Heap, limit: nat, n: MapObject, path: Path, curr: MapObject)
    requires Forest(h, limit) && Forest(h2, limit) && DifferAt(h, h2, curr)
    requires n in h && Walk(h, n, path) == Some(curr)
    ensures Walk(h2, n, path) == Some(curr)
    decreases |path|
  {
    if path != [] {
      WalkIsYounger(h, limit, n, path);
      WalkKept(h, h2, limit, h[n][path[0]].m, path[1..], curr);
    }
  }

  /** The heap after one assignment curr[key] = slot. */
  ghost function Assigned(h: Heap, curr: MapObject, key: string, slot: Slot): Heap
    requires curr in h
  {
    h[curr := h[curr][key := slot]]
  }

  lemma NewMapKeepsForest(h: Heap, limit: nat, curr: MapObject, key: string, next: MapObject)
    requires Forest(h, limit) && curr in h && next !in h
    requires next.birth == limit && next.parent == curr && next.key == key
    ensures Forest(Assigned(h[next := map[]], curr, key, Sub(next)), limit + 1)
  {
  }

  lemma HeldKeepsForest(h: Heap, limit: nat, curr: MapObject, key: string, s: Scalar)
    requires Forest(h, limit) && curr in h
    ensures Forest(Assigned(h, curr, key, Held(s)), limit)
  {
  }

  lemma WalkIntoNew(h: Heap, h2: Heap, limit: nat, m: MapObject, p: Path, curr: MapObject, next: MapObject, key: string)
    requires Forest(h, limit) && Forest(h2, limit) && m in h && next !in h && curr in h && Walk(h, m, p) == Some(curr)
    requires h2 == Assigned(h[next := map[]], curr, key, Sub(next))
    ensures Walk(h2, m, p + [key]) == Some(next)
  {
    WalkKept(h, h2, limit, m, p, curr);
    WalkLast(h2, limit, m, p + [key]);
    assert (p + [key])[..|p|] == p;
  }

  lemma NewMapContent(
      h: Heap, h2: Heap, limit: nat, m: MapObject, p: Path, curr: MapObject, next: MapObject, key: string)
    requires Forest(h, limit) && Forest(h2, limit) && m in h && next !in h && curr in h && Walk(h, m, p) == Some(curr)
    requires h2 == Assigned(h[next := map[]], curr, key, Sub(next))
    ensures Content(h2, limit, m) == Graft(Content(h, limit, m), p, Content(h, limit, curr)[key := Node(map[])])
  {
    InPlace(h, h2, limit, m, p, curr);
    AssignedContent(h, h2, limit, curr, key, Sub(next));
    assert Content(h2, limit, next) == map[];
  }

  /** Putting an empty map where the path needs one changes nothing for the set that is under way. */
  lemma MakesRoom(
      h: Heap, h2: Heap, limit: nat, m: MapObject, p: Path, curr: MapObject, next: MapObject, r: Path, v: Value)
    requires Forest(h, limit) && Forest(h2, limit) && m in h && next !in h && |r| > 1
    requires curr in h && Walk(h, m, p) == Some(curr) && (r[0] in h[curr] ==> h[curr][r[0]].Held?)
    requires h2 == Assigned(h[next := map[]], curr, r[0], Sub(next))
    ensures SetAt(Content(h2, limit, m), p + r, v) == SetAt(Content(h, limit, m), p + r, v)
  {
    var before, sub := Content(h, limit, m), Content(h, limit, curr);
    WalkContent(h, limit, m, p);
    NewMapContent(h, h2, limit, m, p, curr, next, r[0]);
    assert r[0] in sub ==> sub[r[0]] == SlotValue(h, limit, curr, r[0]);
    SetThrough(before, p, r, v);
  }

  lemma SetThrough(before: Tree, p: Path, r: Path, v: Value)
    requires Below(before, p).Some? && |r| > 1
    requires var sub := Below(before, p).value; r[0] in sub ==> sub[r[0]].Leaf?
    ensures SetAt(Graft(before, p, Below(before, p).value[r[0] := Node(map[])]), p + r, v) == SetAt(before, p + r, v)
  {
    var sub := Below(before, p).value;
    var sub2 := sub[r[0] := Node(map[])];
    assert SetAt(sub2, r, v) == SetAt(sub, r, v);
    GraftTwice(before, p, sub2, SetAt(sub2, r, v));
    SetSplit(before, p, r, v);
    SetSplit(Graft(before, p, sub2), p, r, v);
  }

  /** The last assignment completes the set. */
  lemma Completes(h: Heap, h2: Heap, limit: nat, m: MapObject, p: Path, curr: MapObject, key: string, s: Scalar)
    requires Forest(h, limit) && Forest(h2, limit) && m in h && curr in h && Walk(h, m, p) == Some(curr)
    requires h2 == Assigned(h, curr, key, Held(s))
    ensures Content(h2, limit, m) == SetAt(Content(h, limit, m), p + [key], Leaf(s))
  {
    WalkContent(h, limit, m, p);
    InPlace(h, h2, limit, m, p, curr);
    AssignedContent(h, h2, limit, curr, key, Held(s));
    SetSplit(Content(h, limit, m), p, [key], Leaf(s));
  }

  /** A set under way: it has come to curr after i keys, and completing it gives the target. */
  ghost predicate Underway(
      h: Heap, now: nat, top: nat, m: MapObject, parts: Path, i: nat, curr: MapObject, v: Value, target: Tree)
  {
    && Forest(h, now) && now <= top && Forest(h, top) && m in h && curr in h
    && i < |parts| && Walk(h, m, parts[..i]) == Some(curr)
    && SetAt(Content(h, top, m), parts, v) == target
  }

  lemma StepsDown(
      h: Heap, now: nat, top: nat, m: MapObject, parts: Path, i: nat, curr: MapObject, v: Value, target: Tree)
    requires Underway(h, now, top, m, parts, i, curr, v, target) && i + 1 < |parts| && now < top
    requires parts[i] in h[curr] && h[curr][parts[i]].Sub?
    ensures Underway(h, now + 1, top, m, parts, i + 1, h[curr][parts[i]].m, v, target)
  {
    assert parts[..i + 1][..i] == parts[..i];
    WalkLast(h, top, m, parts[..i + 1]);
  }

  lemma StepsIntoNew(h: Heap, h2: Heap, now: nat, top: nat, m: MapObject, parts: Path, i: nat, curr: MapObject,
                     next: MapObject, v: Value, target: Tree)
    requires Underway(h, now, top, m, parts, i, curr, v, target) && i + 1 < |parts| && now < top
    requires parts[i] in h[curr] ==> h[curr][parts[i]].Held?
    requires next !in h && next.birth == now && next.parent == curr && next.key == parts[i]
    requires h2 == Assigned(h[next := map[]], curr, parts[i], Sub(next))
    ensures Underway(h2, now + 1, top, m, parts, i + 1, next, v, target)
  {
    NewMapKeepsForest(h, now, curr, parts[i], next);
    assert parts[..i] + [parts[i]] == parts[..i + 1] && parts[..i] + parts[i..] == parts;
    WalkIntoNew(h, h2, top, m, parts[..i], curr, next, parts[i]);
    MakesRoom(h, h2, top, m, parts[..i], curr, next, parts[i..], v);
  }

  lemma WritesLast(
      h: Heap, h2: Heap, now: nat, top: nat, m: MapObject, parts: Path, curr: MapObject, s: Scalar, target: Tree)
    requires parts != [] && Underway(h, now, top, m, parts, |parts| - 1, curr, Leaf(s), target)
    requires h2 == Assigned(h, curr, parts[|parts| - 1], Held(s))
    ensures Forest(h2, top) && Content(h2, top, m) == target
  {
    HeldKeepsForest(h, top, curr, parts[|parts| - 1], s);
    assert parts == parts[..|parts| - 1] + [parts[|parts| - 1]];
    Completes(h, h2, top, m, parts[..|parts| - 1], curr, parts[|parts| - 1], s);
  }

  // ----- the operations

  /** curr[key] = make(map[string]interface{}). */
  method PutNewMap(curr: MapObject, key: string, ghost birth: nat, ghost nodes: set<MapObject>)
    returns (next: MapObject)
    requires curr in nodes
    modifies curr
    ensures fresh(next) && next.birth == birth && next.parent == curr && next.key == key
    ensures Snapshot(nodes + {next}) == Assigned(old(Snapshot(nodes))[next := map[]], curr, key, Sub(next))
  {
    next := new MapObject(birth, curr, key);
    curr.entries := curr.entries[key := Sub(next)];
  }

  /** curr[key] = val. */
  method PutScalar(curr: MapObject, key: string, val: Scalar, ghost nodes: set<MapObject>)
    requires curr in nodes
    modifies curr
    ensures Snapshot(nodes) == Assigned(old(Snapshot(nodes)), curr, key, Held(val))
  {
    curr.entries := curr.entries[key := Held(val)];
  }

  /** setCustomNested: walks down, making maps on the way, and writes the last key. */
  method SetCustomNested(m: MapObject, parts: Path, val: Scalar, ghost nodes: set<MapObject>, ghost limit: nat)
    returns (ghost after: set<MapObject>, ghost top: nat)
    requires m in nodes && Forest(Snapshot(nodes), limit)
    modifies nodes
    ensures nodes <= after && fresh(after - nodes) && Forest(Snapshot(after), top)
    ensures Content(Snapshot(after), top, m) == SetAt(old(Content(Snapshot(nodes), limit, m)), parts, Leaf(val))
  {
    after, top := nodes, limit + |parts|;
    ghost var h := Snapshot(nodes);
    LimitIsFree(h, limit, top, m);
    if |parts| == 0 {
      return;
    }
    ghost var target := SetAt(Content(h, limit, m), parts, Leaf(val));
    var curr := m;
    var i := 0;
    while i < |parts| - 1
      invariant 0 <= i <= |parts| - 1
      invariant nodes <= after && fresh(after - nodes) && curr in after && h == Snapshot(after)
      invariant Underway(h, limit + i, top, m, parts, i, curr, Leaf(val), target)
    {
      var part := parts[i];
      if part in curr.entries && curr.entries[part].Sub? {
        StepsDown(h, limit + i, top, m, parts, i, curr, Leaf(val), target);
        curr := curr.entries[part].m;
      } else {
        var next := PutNewMap(curr, part, limit + i, after);
        StepsIntoNew(h, Snapshot(after + {next}), limit + i, top, m, parts, i, curr, next, Leaf(val), target);
        after := after + {next};
        h, curr := Snapshot(after), next;
      }
      i := i + 1;
    }
    PutScalar(curr, parts[|parts| - 1], val, after);
    WritesLast(h, Snapshot(after), limit + i, top, m, parts, curr, val, target);
  }

  /** The heap unsetCustomNested leaves. */
  ghost function Unset(h: Heap, n: MapObject, parts: Path): Heap
    decreases |parts|
  {
    if parts == [] || n !in h then h
    else if |parts| == 1 then h[n := h[n] - {parts[0]}]
    else if parts[0] in h[n] && h[n][parts[0]].Sub? then Unset(h, h[n][parts[0]].m, parts[1..])
    else h
  }

  lemma {:induction false} UnsetAtWalk(h: Heap, limit: nat, n: MapObject, parts: Path)
    requires Forest(h, limit) && n in h && parts != []
    ensures
      var end, last := Walk(h, n, parts[..|parts| - 1]), parts[|parts| - 1];
      && (end.Some? ==> end.value in h)
      && Unset(h, n, parts) == if end.Some? then h[end.value := h[end.value] - {last}] else h
    decreases |parts|
  {
    var init := parts[..|parts| - 1];
    if |parts| > 1 {
      assert init[0] == parts[0] && init[1..] == parts[1..][..|parts[1..]| - 1];
      if parts[0] in h[n] && h[n][parts[0]].Sub? {
        UnsetAtWalk(h, limit, h[n][parts[0]].m, parts[1..]);
      }
    }
  }

  lemma UnsetContent(h: Heap, limit: nat, n: MapObject, parts: Path)
    requires Forest(h, limit) && n in h
    ensures Forest(Unset(h, n, parts), limit) && n in Unset(h, n, parts)
    ensures Content(Unset(h, n, parts), limit, n) == UnsetAt(Content(h, limit, n), parts)
  {
    if parts != [] {
      var init, last := parts[..|parts| - 1], parts[|parts| - 1];
      var h2: Heap := Unset(h, n, parts);
      UnsetAtWalk(h, limit, n, parts);
      WalkContent(h, limit, n, init);
      UnsetSplit(Content(h, limit, n), init, last);
      assert parts == init + [last];
      if Walk(h, n, init).Some? {
        var curr := Walk(h, n, init).value;
        assert Forest(h2, limit);
        InPlace(h, h2, limit, n, init, curr);
        RemovedContent(h, h2, limit, curr, last);
      }
    }
  }

  /** unsetCustomNested. */
  method UnsetCustomNested(m: MapObject, parts: Path, ghost nodes: set<MapObject>, ghost limit: nat)
    requires m in nodes && Forest(Snapshot(nodes), limit)
    modifies nodes
    ensures Snapshot(nodes) == Unset(old(Snapshot(nodes)), m, parts)
    decreases |parts|
  {
    if |parts| == 0 {
      return;
    }
    if |parts| == 1 {
      m.entries := m.entries - {parts[0]};
      return;
    }
    var part := parts[0];
    if part in m.entries {
      var next := m.entries[part];
      if next.Sub? {
        UnsetCustomNested(next.m, parts[1..], nodes, limit);
      }
    }
  }

  /** getCustomNested. */
  method GetCustomNested(m: MapObject, parts: Path, ghost nodes: set<MapObject>, ghost limit: nat)
    returns (r: Option<Slot>)
    requires m in nodes && Forest(Snapshot(nodes), limit)
    ensures r.Some? && r.value.Sub? ==> r.value.m in nodes
    ensures Lookup(Content(Snapshot(nodes), limit, m), parts) ==
      match r
      case None => None
      case Some(Held(s)) => Some(Leaf(s))
      case Some(Sub(n)) => Some(Node(Content(Snapshot(nodes), limit, n)))
  {
    if |parts| == 0 {
      return None;
    }
    var curr := m;
    ghost var h: Heap := Snapshot(nodes);
    for i := 0 to |parts|
      invariant curr in nodes
      invariant Lookup(Content(h, limit, m), parts) == Lookup(Content(h, limit, curr), parts[i..])
    {
      var part := parts[i];
      assert parts[i..][0] == part && parts[i..][1..] == parts[i + 1..];
      if part !in curr.entries {
        return None;
      }
      assert Content(h, limit, curr)[part] == SlotValue(h, limit, curr, part);
      var val := curr.entries[part];
      if i == |parts| - 1 {
        return Some(val);
      }
      if val.Held? {
        return None;
      }
      curr := val.m;
    }
    return None;
  }

  /** FlattenCustomMap: appends the leaves below m, each once and in path order. */
  method FlattenCustomMap(
      prefix: string, m: MapObject, entries: seq<Entry>, ghost nodes: set<MapObject>, ghost limit: nat)
    returns (out: seq<Entry>)
    requires m in nodes && Forest(Snapshot(nodes), limit)
    ensures entries <= out && IsListing(prefix, Content(Snapshot(nodes), limit, m), out[|entries|..])
    decreases limit - m.birth
  {
    var keys := SortKeys(m.entries.Keys);
    ghost var tree := Content(Snapshot(nodes), limit, m);
    ghost var paths: seq<Path> := [];
    out := entries;
    for i := 0 to |keys|
      invariant ListsUpTo(tree, keys, i, paths)
      invariant out == entries + Rendered(prefix, tree, paths)
    {
      var k := keys[i];
      assert k in keys;
      assert tree[k] == SlotValue(Snapshot(nodes), limit, m, k);
      var fullKey := prefix + "." + k;
      ghost var before := out;
      if m.entries[k].Sub? {
        out := FlattenCustomMap(fullKey, m.entries[k].m, out, nodes, limit);
        ghost var sub :| Lists(tree[k].entries, sub) && out[|before|..] == Rendered(fullKey, tree[k].entries, sub);
        assert out == before + out[|before|..];
        ListsNext(tree, keys, i, paths, Under(k, sub), sub);
        RenderedUnder(prefix, tree, k, sub);
        RenderedAppend(prefix, tree, paths, Under(k, sub), entries);
        paths := paths + Under(k, sub);
      } else {
        ListsNext(tree, keys, i, paths, [[k]], []);
        RenderedAppend(prefix, tree, paths, [[k]], entries);
        out := out + [Entry(fullKey, m.entries[k].scalar)];
        paths := paths + [[k]];
      }
    }
    assert keys[..|keys|] == keys;
    assert out[|entries|..] == Rendered(prefix, tree, paths);
    assert Lists(tree, paths);
  }

  /** The part of Config below "custom". */
  class Config {
    var custom: MapObject?
    ghost var nodes: set<MapObject>
    ghost var limit: nat

    ghost predicate Valid()
      reads this, nodes
    {
      Forest(Snapshot(nodes), limit) && (custom != null ==> custom in nodes)
    }

    /** The tree below "custom"; a config without one has an empty tree. */
    ghost function Tree(): Tree
      requires Valid()
      reads this, nodes
    {
      if custom == null then map[] else Content(Snapshot(nodes), limit, custom)
    }

    constructor ()
      ensures Valid() && Tree() == map[] && fresh(nodes)
    {
      var root := new MapObject(0, null, "");
      custom, nodes, limit := root, {root}, 1;
    }

    method Set(path: string, value: string, infer: string -> Scalar) returns (r: Answer)
      requires Valid()
      modifies this, nodes
      ensures Valid() && fresh(nodes - old(nodes))
      ensures r == Route(path)
      ensures Tree() ==
        if r == Done then SetAt(old(Tree()), Normalized(path)[1..], Leaf(infer(TrimSpace(value)))) else old(Tree())
    {
      var parts := NormalizePath(path);
      if |parts| == 0 {
        return EmptyPath;
      }
      var v := TrimSpace(value);
      if Lower(parts[0]) != CUSTOM {
        return OtherDomain;
      }
      if |parts| == 1 {
        return RootNamespace;
      }
      PutCustom(parts[1..], infer(v));
      return Done;
    }

    /** The last lines of the custom branch of Set. */
    method PutCustom(subparts: Path, val: Scalar)
      requires Valid()
      modifies this, nodes
      ensures Valid() && fresh(nodes - old(nodes))
      ensures Tree() == SetAt(old(Tree()), subparts, Leaf(val))
    {
      if custom == null {
        ReplaceRoot();
      }
      ghost var after, top := SetCustomNested(custom, subparts, val, nodes, limit);
      nodes, limit := after, top;
    }

    /** c.Custom = make(map[string]interface{}). */
    method ReplaceRoot()
      requires Valid()
      modifies this
      ensures Valid() && Tree() == map[] && custom != null && fresh(nodes - old(nodes))
    {
      var root := new MapObject(0, null, "");
      custom, nodes, limit := root, {root}, 1;
    }

    method Unset(path: string) returns (r: Answer)
      requires Valid()
      modifies this, nodes
      ensures Valid() && fresh(nodes - old(nodes))
      ensures r == if Route(path) == RootNamespace then Done else Route(path)
      ensures Tree() ==
        if Route(path) == RootNamespace then map[]
        else if r == Done then UnsetAt(old(Tree()), Normalized(path)[1..])
        else old(Tree())
    {
      var parts := NormalizePath(path);
      if |parts| == 0 {
        return EmptyPath;
      }
      if Lower(parts[0]) != CUSTOM {
        return OtherDomain;
      }
      if |parts| == 1 {
        ReplaceRoot();
        return Done;
      }
      if custom != null {
        UnsetContent(Snapshot(nodes), limit, custom, parts[1..]);
        UnsetCustomNested(custom, parts[1..], nodes, limit);
      }
      return Done;
    }

    method Get(path: string) returns (r: Answer)
      requires Valid()
      ensures r == GetAnswer(Tree(), path)
    {
      var parts := NormalizePath(path);
      if |parts| == 0 {
        return EmptyPath;
      }
      if Lower(parts[0]) != CUSTOM {
        return OtherDomain;
      }
      if |parts| == 1 {
        return NotFound;
      }
      var subparts := parts[1..];
      if custom == null {
        return NotFound;
      }
      var slot := GetCustomNested(custom, subparts, nodes, limit);
      match slot {
        case None => return NotFound;
        case Some(Held(s)) => return Found(Entry("custom." + Join(subparts, "."), s));
        case Some(Sub(_)) => return FoundMap;
      }
    }

    /** The custom part of Entries. */
    method Entries() returns (entries: seq<Entry>)
      requires Valid()
      ensures IsListing(CUSTOM, Tree(), entries)
    {
      entries := [];
      if custom == null {
        assert Lists(map[], []) && Rendered(CUSTOM, map[], []) == [];
      } else {
        entries := FlattenCustomMap(CUSTOM, custom, entries, nodes, limit);
        assert entries[0..] == entries;
      }
    }
  }
}
