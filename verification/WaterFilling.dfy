/** The round-robin shrink of pkg/table/render.go, and its closed form. */
module WaterFilling {
  import opened Strings

  function Sum(s: seq<int>): int {
    if s == [] then 0 else s[0] + Sum(s[1..])
  }

  lemma {:induction false} SumUpdate(s: seq<int>, i: nat, x: int)
    requires i < |s|
    ensures Sum(s[i := x]) == Sum(s) - s[i] + x
  {
    if i == 0 {
      assert s[0 := x][1..] == s[1..];
    } else {
      assert s[i := x][1..] == s[1..][i - 1 := x];
      SumUpdate(s[1..], i - 1, x);
    }
  }

  lemma {:induction false} SumSnoc(s: seq<int>, x: int)
    ensures Sum(s + [x]) == Sum(s) + x
  {
    if s == [] {
      assert s + [x] == [x];
      assert [x][1..] == [];
    } else {
      assert (s + [x])[1..] == s[1..] + [x];
      SumSnoc(s[1..], x);
    }
  }

  lemma {:induction false} SumAdd(a: seq<int>, b: seq<int>, both: seq<int>)
    requires |a| == |b| == |both| && forall i :: 0 <= i < |a| ==> both[i] == a[i] + b[i]
    ensures Sum(both) == Sum(a) + Sum(b)
  {
    if a != [] {
      SumAdd(a[1..], b[1..], both[1..]);
    }
  }

  lemma {:induction false} SumMonotone(a: seq<int>, b: seq<int>)
    requires |a| == |b|
    requires forall i :: 0 <= i < |a| ==> a[i] <= b[i]
    ensures Sum(a) <= Sum(b)
    ensures Sum(a) == Sum(b) ==> a == b
  {
    if a != [] {
      SumMonotone(a[1..], b[1..]);
      assert a == [a[0]] + a[1..] && b == [b[0]] + b[1..];
    }
  }

  lemma {:induction false} SumBound(s: seq<int>, bound: int)
    requires forall i :: 0 <= i < |s| ==> s[i] <= bound
    ensures Sum(s) <= |s| * bound
  {
    if s != [] {
      SumBound(s[1..], bound);
    }
  }

  /** How a shrink treats each column: only flexible ones give cells, and each down to its own floor. */
  datatype Rule = Rule(flexible: bool, floor: int)

  /** How far a column of width w can still shrink. */
  function Room(w: int, rule: Rule): nat {
    if rule.flexible then Max(0, w - rule.floor) else 0
  }

  /** The share of column c when the columns before bound are one turn ahead of the others. */
  function Share(c: nat, level: nat, bound: nat): nat {
    if c < bound then level + 1 else level
  }

  /** The water level: every column gave its share, or its whole room if that is less. */
  function Drained(widths: seq<int>, rules: seq<Rule>, level: nat, bound: nat): (r: seq<int>)
    requires |widths| == |rules|
    ensures |r| == |widths|
  {
    seq(|widths|, c requires 0 <= c < |widths| => widths[c] - Min(Room(widths[c], rules[c]), Share(c, level, bound)))
  }

  /** The widths when every column has given its whole room. */
  function Dry(widths: seq<int>, rules: seq<Rule>): (r: seq<int>)
    requires |widths| == |rules|
    ensures |r| == |widths|
  {
    seq(|widths|, c requires 0 <= c < |widths| => widths[c] - Room(widths[c], rules[c]))
  }

  /** after is before drained to some water level. */
  ghost predicate WaterFilled(before: seq<int>, rules: seq<Rule>, after: seq<int>) {
    && |before| == |rules|
    && exists level: nat, bound: nat :: after == Drained(before, rules, level, bound)
  }

  /** Nobody has room beyond level. */
  ghost predicate Exhausted(widths: seq<int>, rules: seq<Rule>, level: nat)
    requires |widths| == |rules|
  {
    forall c :: 0 <= c < |widths| ==> Room(widths[c], rules[c]) <= level
  }

  /** The flexible columns, in table order. */
  ghost predicate ListsFlexible(indices: seq<nat>, rules: seq<Rule>) {
    && (forall j :: 0 <= j < |indices| ==> indices[j] < |rules| && rules[indices[j]].flexible)
    && (forall i, j :: 0 <= i < j < |indices| ==> indices[i] < indices[j])
    && (forall c :: 0 <= c < |rules| && rules[c].flexible ==> c in indices)
  }

  /** The first flexible column at or after turn j; |rules| when there is none. */
  function NextColumn(indices: seq<nat>, rules: seq<Rule>, j: nat): nat
    requires j <= |indices|
  {
    if j < |indices| then indices[j] else |rules|
  }

  /** Moving the bound past one flexible column gives that column's next cell, if it has one. */
  lemma DrainNext(widths: seq<int>, rules: seq<Rule>, indices: seq<nat>, level: nat, j: nat)
    requires |widths| == |rules| && ListsFlexible(indices, rules) && j < |indices|
    ensures
      var now := Drained(widths, rules, level, indices[j]);
      var c := indices[j];
      && Drained(widths, rules, level, NextColumn(indices, rules, j + 1))
         == (if now[c] > rules[c].floor then now[c := now[c] - 1] else now)
      && (now[c] > rules[c].floor <==> Room(widths[c], rules[c]) > level)
  {
    var c := indices[j];
    var now, next := Drained(widths, rules, level, c), Drained(widths, rules, level, NextColumn(indices, rules, j + 1));
    forall d | 0 <= d < |widths| && d != c ensures next[d] == now[d] {
      if rules[d].flexible {
        var i :| 0 <= i < |indices| && indices[i] == d;
        assert i < j || j < i;
      }
    }
  }

  /** Before the first flexible column nothing is drained, and past the last the round is over. */
  lemma DrainRound(widths: seq<int>, rules: seq<Rule>, indices: seq<nat>, level: nat)
    requires |widths| == |rules| && ListsFlexible(indices, rules)
    ensures Drained(widths, rules, level, |rules|) == Drained(widths, rules, level + 1, NextColumn(indices, rules, 0))
    ensures Drained(widths, rules, 0, NextColumn(indices, rules, 0)) == widths
  {
    var first := NextColumn(indices, rules, 0);
    forall d | 0 <= d < |widths| && rules[d].flexible ensures d >= first {
      var i :| 0 <= i < |indices| && indices[i] == d;
    }
  }

  /** Draining never takes more than the whole room, and all of it once nobody has room left. */
  lemma DrainedToDry(widths: seq<int>, rules: seq<Rule>, level: nat, bound: nat)
    requires |widths| == |rules|
    ensures Sum(Drained(widths, rules, level, bound)) >= Sum(Dry(widths, rules))
    ensures Exhausted(widths, rules, level) ==> Drained(widths, rules, level, bound) == Dry(widths, rules)
  {
    SumMonotone(Dry(widths, rules), Drained(widths, rules, level, bound));
  }

  /** One turn: column c gives a cell if it has room and cells are still wanted. */
  method Offer(widths: array<int>, c: nat, floor: int, wanted: nat) returns (left: nat)
    requires c < widths.Length
    modifies widths
    ensures old(widths[c]) > floor && wanted > 0 ==>
      widths[..] == old(widths[..])[c := old(widths[c]) - 1] && left == wanted - 1
    ensures !(old(widths[c]) > floor && wanted > 0) ==> widths[..] == old(widths[..]) && left == wanted
    ensures Sum(widths[..]) - left == Sum(old(widths[..])) - wanted
  {
    left := wanted;
    if widths[c] > floor && left > 0 {
      SumUpdate(widths[..], c, widths[c] - 1);
      widths[c] := widths[c] - 1;
      left := left - 1;
    }
  }

  /** One turn of a round: moves the bound past flexible column j, while cells are still wanted. */
  method Turn(widths: array<int>, indices: seq<nat>, rules: seq<Rule>, j: nat, wanted: nat,
              ghost before: seq<int>, ghost level: nat)
    returns (left: nat)
    requires |rules| == |before| == widths.Length && ListsFlexible(indices, rules) && j < |indices|
    requires wanted > 0 ==> widths[..] == Drained(before, rules, level, NextColumn(indices, rules, j))
    modifies widths
    ensures widths[..] ==
      if wanted > 0 then Drained(before, rules, level, NextColumn(indices, rules, j + 1)) else old(widths[..])
    ensures left <= wanted && Sum(widths[..]) - left == Sum(old(widths[..])) - wanted
    ensures wanted > 0 ==> (left < wanted <==> Room(before[indices[j]], rules[indices[j]]) > level)
  {
    DrainNext(before, rules, indices, level, j);
    left := Offer(widths, indices[j], rules[indices[j]].floor, wanted);
  }

  /** One round: offers every flexible column, in order, to give one cell. */
  method ShrinkRound(widths: array<int>, indices: seq<nat>, rules: seq<Rule>, excess: nat,
                     ghost before: seq<int>, ghost level: nat)
    returns (left: nat, shrunkAny: bool, ghost bound: nat)
    requires |rules| == |before| == widths.Length && ListsFlexible(indices, rules)
    requires widths[..] == Drained(before, rules, level, NextColumn(indices, rules, 0)) && excess > 0
    modifies widths
    ensures widths[..] == Drained(before, rules, level, bound)
    ensures left > 0 ==> bound == |rules|
    ensures left <= excess && Sum(widths[..]) - left == Sum(old(widths[..])) - excess
    ensures shrunkAny <==> left < excess
    ensures !shrunkAny ==> Exhausted(before, rules, level)
  {
    left, shrunkAny, bound := excess, false, NextColumn(indices, rules, 0);
    var j := 0;
    while j < |indices|
      invariant 0 <= j <= |indices|
      invariant widths[..] == Drained(before, rules, level, bound)
      invariant left > 0 ==> bound == NextColumn(indices, rules, j)
      invariant left <= excess && Sum(widths[..]) - left == Sum(old(widths[..])) - excess
      invariant shrunkAny <==> left < excess
      invariant !shrunkAny ==> forall i :: 0 <= i < j ==> Room(before[indices[i]], rules[indices[i]]) <= level
    {
      var wanted := left;
      left := Turn(widths, indices, rules, j, wanted, before, level);
      if wanted > 0 {
        bound := NextColumn(indices, rules, j + 1);
      }
      shrunkAny := shrunkAny || left < wanted;
      j := j + 1;
    }
    if !shrunkAny {
      RoundExhausted(before, rules, indices, level);
    }
  }

  lemma RoundExhausted(widths: seq<int>, rules: seq<Rule>, indices: seq<nat>, level: nat)
    requires |widths| == |rules| && ListsFlexible(indices, rules)
    requires forall i :: 0 <= i < |indices| ==> Room(widths[indices[i]], rules[indices[i]]) <= level
    ensures Exhausted(widths, rules, level)
  {
    forall c | 0 <= c < |widths| && rules[c].flexible ensures Room(widths[c], rules[c]) <= level {
      var i :| 0 <= i < |indices| && indices[i] == c;
    }
  }

  /** One shrink loop: takes excess cells off the flexible columns, one cell a turn. */
  method Shrink(widths: array<int>, indices: seq<nat>, rules: seq<Rule>, excess: nat) returns (left: nat)
    requires |rules| == widths.Length && ListsFlexible(indices, rules)
    modifies widths
    ensures WaterFilled(old(widths[..]), rules, widths[..])
    ensures Sum(widths[..]) == Max(Sum(old(widths[..])) - excess, Sum(Dry(old(widths[..]), rules)))
    ensures left == Sum(widths[..]) - (Sum(old(widths[..])) - excess)
  {
    ghost var before := widths[..];
    ghost var level: nat, bound: nat := 0, NextColumn(indices, rules, 0);
    DrainRound(before, rules, indices, 0);
    left := excess;
    while left > 0
      invariant widths[..] == Drained(before, rules, level, bound)
      invariant left > 0 ==> bound == NextColumn(indices, rules, 0)
      invariant left <= excess && Sum(widths[..]) - left == Sum(before) - excess
      decreases left
    {
      var shrunkAny;
      left, shrunkAny, bound := ShrinkRound(widths, indices, rules, left, before, level);
      if !shrunkAny {
        DrainedToDry(before, rules, level, bound);
        return;
      }
      if left > 0 {
        DrainRound(before, rules, indices, level);
        level, bound := level + 1, NextColumn(indices, rules, 0);
      }
    }
    DrainedToDry(before, rules, level, bound);
  }

  // ----- what a shrink promises

  /** A higher water level leaves no column wider. */
  lemma DrainOrder(widths: seq<int>, rules: seq<Rule>, level: nat, bound: nat, level': nat, bound': nat)
    requires |widths| == |rules|
    requires level < level' || (level == level' && bound <= bound')
    ensures
      var higher, lower := Drained(widths, rules, level', bound'), Drained(widths, rules, level, bound);
      forall c :: 0 <= c < |widths| ==> higher[c] <= lower[c]
  {
  }

  /** The total alone fixes the outcome of a shrink: there is one water-filling of each total. */
  lemma WaterFillingUnique(before: seq<int>, rules: seq<Rule>, a: seq<int>, b: seq<int>)
    requires WaterFilled(before, rules, a) && WaterFilled(before, rules, b)
    requires Sum(a) == Sum(b)
    ensures a == b
  {
    var level: nat, bound: nat :| a == Drained(before, rules, level, bound);
    var level': nat, bound': nat :| b == Drained(before, rules, level', bound');
    if level < level' || (level == level' && bound <= bound') {
      DrainOrder(before, rules, level, bound, level', bound');
      SumMonotone(b, a);
    } else {
      DrainOrder(before, rules, level', bound', level, bound);
      SumMonotone(a, b);
    }
  }

  /** Shrinking is fair: while a column still has room, no other has given up more than one cell more, and none to the
      right of it more at all. */
  lemma WaterFillingFair(before: seq<int>, rules: seq<Rule>, after: seq<int>, c: nat, d: nat)
    requires WaterFilled(before, rules, after)
    requires c < |before| && d < |before| && rules[c].flexible && |after| == |before| && after[c] > rules[c].floor
    ensures before[d] - after[d] <= before[c] - after[c] + if c < d then 0 else 1
  {
    var level: nat, bound: nat :| after == Drained(before, rules, level, bound);
  }

  /** A shrink touches only flexible columns, widens none, and stops each at its floor. */
  lemma WaterFillingBounds(before: seq<int>, rules: seq<Rule>, after: seq<int>, c: nat)
    requires WaterFilled(before, rules, after) && c < |before|
    ensures |after| == |before|
    ensures after[c] <= before[c]
    ensures if rules[c].flexible then after[c] >= Min(before[c], rules[c].floor) else after[c] == before[c]
  {
    var level: nat, bound: nat :| after == Drained(before, rules, level, bound);
  }

  /** A shrink that has taken the whole room has left nobody above the floor. */
  lemma DryWhenDrained(before: seq<int>, rules: seq<Rule>, after: seq<int>)
    requires WaterFilled(before, rules, after) && Sum(after) == Sum(Dry(before, rules))
    ensures after == Dry(before, rules)
  {
    var level: nat, bound: nat :| after == Drained(before, rules, level, bound);
    SumMonotone(Dry(before, rules), after);
  }

  /** lower has the same flexible columns as rules, and no higher floors. */
  ghost predicate Deeper(rules: seq<Rule>, lower: seq<Rule>) {
    && |rules| == |lower|
    && forall c :: 0 <= c < |rules| ==> lower[c].flexible == rules[c].flexible && lower[c].floor <= rules[c].floor
  }

  /** Shrinking to higher floors first does not change what the lower ones leave. */
  lemma SameDry(before: seq<int>, rules: seq<Rule>, lower: seq<Rule>, after: seq<int>)
    requires WaterFilled(before, rules, after) && Deeper(rules, lower)
    ensures |after| == |before| && Dry(before, lower) == Dry(after, lower)
  {
    var level: nat, bound: nat :| after == Drained(before, rules, level, bound);
    forall c | 0 <= c < |before| ensures Dry(before, lower)[c] == Dry(after, lower)[c] {
    }
  }

  function Rooms(widths: seq<int>, rules: seq<Rule>): seq<int>
    requires |widths| == |rules|
  {
    seq(|widths|, c requires 0 <= c < |widths| => Room(widths[c], rules[c]))
  }

  /** The lowest total is the total less everybody's room. */
  lemma DryTotal(widths: seq<int>, rules: seq<Rule>)
    requires |widths| == |rules|
    ensures Sum(Dry(widths, rules)) == Sum(widths) - Sum(Rooms(widths, rules))
  {
    SumAdd(Dry(widths, rules), Rooms(widths, rules), widths);
  }
}
