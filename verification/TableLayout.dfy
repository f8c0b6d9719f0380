/** Column widths: what CalculateWidths of pkg/table/render.go promises about them. */
module TableLayout {
  import opened Strings
  import opened WaterFilling

  datatype Alignment = AlignLeft | AlignRight | AlignCenter

  datatype Column = Column(
    title: string, minWidth: int, maxWidth: int, flexible: bool, endTruncate: bool, align: Alignment)

  predicate SomeFlexible(columns: seq<Column>) {
    exists c :: 0 <= c < |columns| && columns[c].flexible
  }

  /** A column shrinks when it is declared flexible; every column does when none is. */
  predicate Shrinks(columns: seq<Column>, c: nat)
    requires c < |columns|
  {
    columns[c].flexible || !SomeFlexible(columns)
  }

  /** The first shrink stops at the declared minimum, but never below 4. */
  function SoftRules(columns: seq<Column>): (r: seq<Rule>)
    ensures |r| == |columns|
  {
    seq(|columns|, c requires 0 <= c < |columns| => Rule(Shrinks(columns, c), Max(columns[c].minWidth, 4)))
  }

  /** The second shrink stops at 3. */
  function HardRules(columns: seq<Column>): (r: seq<Rule>)
    ensures |r| == |columns|
  {
    seq(|columns|, c requires 0 <= c < |columns| => Rule(Shrinks(columns, c), 3))
  }

  /** The space for cells, never below four cells a column. */
  function Available(columns: nat, termWidth: int, detected: int, indentWidth: nat, padding: int): (r: int)
    ensures r >= columns * 4
  {
    var term := if termWidth <= 0 then detected else termWidth;
    Max(term - indentWidth - (columns - 1) * padding, columns * 4)
  }

  /** Two shrinks in a row: to the soft floors and, only for what is still missing, on to the hard ones. */
  ghost predicate TwoPhases(natural: seq<int>, softRules: seq<Rule>, hardRules: seq<Rule>, available: int,
                            soft: seq<int>, widths: seq<int>) {
    && WaterFilled(natural, softRules, soft)
    && Sum(soft) == Max(available, Sum(Dry(natural, softRules)))
    && WaterFilled(soft, hardRules, widths)
    && Sum(widths) == Max(available, Sum(Dry(soft, hardRules)))
  }

  /** widths is the layout of natural in the available space: unchanged when it fits, else shrunk in two phases. */
  ghost predicate LaidOut(natural: seq<int>, softRules: seq<Rule>, hardRules: seq<Rule>, available: int,
                          widths: seq<int>) {
    if Sum(natural) <= available then widths == natural
    else exists soft :: TwoPhases(natural, softRules, hardRules, available, soft, widths)
  }

  // ----- what a layout promises

  /** Declared flexible, or in a table that declares no column flexible. */
  predicate MayShrink(columns: seq<Column>, c: nat)
    requires c < |columns|
  {
    columns[c].flexible || forall d :: 0 <= d < |columns| ==> !columns[d].flexible
  }

  /** As far down as the columns can be cut. */
  function Least(columns: seq<Column>, natural: seq<int>): (least: seq<int>)
    requires |natural| == |columns|
    ensures |least| == |columns|
  {
    seq(|columns|, c requires 0 <= c < |columns| => if MayShrink(columns, c) then Min(natural[c], 3) else natural[c])
  }

  lemma LeastIsDry(columns: seq<Column>, natural: seq<int>)
    requires |natural| == |columns|
    ensures Least(columns, natural) == Dry(natural, HardRules(columns))
  {
    forall c: nat | c < |columns| ensures Least(columns, natural)[c] == Dry(natural, HardRules(columns))[c] {
      assert MayShrink(columns, c) == Shrinks(columns, c);
    }
  }

  /** The layout is a function of the columns, the natural widths and the space. */
  lemma LayoutUnique(natural: seq<int>, softRules: seq<Rule>, hardRules: seq<Rule>, available: int,
                     a: seq<int>, b: seq<int>)
    requires LaidOut(natural, softRules, hardRules, available, a)
    requires LaidOut(natural, softRules, hardRules, available, b)
    ensures a == b
  {
    if Sum(natural) > available {
      var soft :| TwoPhases(natural, softRules, hardRules, available, soft, a);
      var soft' :| TwoPhases(natural, softRules, hardRules, available, soft', b);
      WaterFillingUnique(natural, softRules, soft, soft');
      WaterFillingUnique(soft, hardRules, a, b);
    }
  }

  /** No column grows, none shrinks below 3 cells, and one that is not flexible keeps its natural width. */
  lemma LayoutKeeps(columns: seq<Column>, natural: seq<int>, available: int, widths: seq<int>, c: nat)
    requires |natural| == |columns| && c < |columns|
    requires LaidOut(natural, SoftRules(columns), HardRules(columns), available, widths)
    ensures |widths| == |columns|
    ensures Min(natural[c], 3) <= widths[c] <= natural[c]
    ensures !MayShrink(columns, c) ==> widths[c] == natural[c]
  {
    var softRules, hardRules := SoftRules(columns), HardRules(columns);
    if Sum(natural) > available {
      var soft :| TwoPhases(natural, softRules, hardRules, available, soft, widths);
      WaterFillingBounds(natural, softRules, soft, c);
      WaterFillingBounds(soft, hardRules, widths, c);
    }
  }

  /** No column is cut below its soft floor before all flexible ones have come down to theirs. */
  lemma SoftFloorsFirst(columns: seq<Column>, natural: seq<int>, available: int, widths: seq<int>, c: nat, d: nat)
    requires |natural| == |columns| && c < |columns| && d < |columns|
    requires LaidOut(natural, SoftRules(columns), HardRules(columns), available, widths)
    requires |widths| == |columns| && widths[c] < natural[c] && widths[c] < Max(columns[c].minWidth, 4)
    requires MayShrink(columns, d)
    ensures widths[d] <= Max(columns[d].minWidth, 4)
  {
    var softRules, hardRules := SoftRules(columns), HardRules(columns);
    assert Sum(natural) > available;
    var soft :| TwoPhases(natural, softRules, hardRules, available, soft, widths);
    WaterFillingBounds(natural, softRules, soft, c);
    WaterFillingBounds(soft, hardRules, widths, c);
    WaterFillingBounds(soft, hardRules, widths, d);
    StrictlyLess(soft, hardRules, widths, c);
    DryWhenDrained(natural, softRules, soft);
    assert soft[d] == Dry(natural, softRules)[d];
  }

  lemma StrictlyLess(before: seq<int>, rules: seq<Rule>, after: seq<int>, c: nat)
    requires WaterFilled(before, rules, after) && c < |before| == |after| && after[c] < before[c]
    ensures Sum(after) < Sum(before)
  {
    forall d: nat | d < |before| ensures after[d] <= before[d] {
      WaterFillingBounds(before, rules, after, d);
    }
    SumMonotone(after, before);
  }

  /** The total is the space, or what is left when every flexible column is down to three cells. */
  lemma LayoutTotal(columns: seq<Column>, natural: seq<int>, available: int, widths: seq<int>)
    requires |natural| == |columns|
    requires LaidOut(natural, SoftRules(columns), HardRules(columns), available, widths)
    ensures Sum(natural) > available ==> Sum(widths) == Max(available, Sum(Least(columns, natural)))
  {
    var softRules, hardRules := SoftRules(columns), HardRules(columns);
    if Sum(natural) > available {
      var soft :| TwoPhases(natural, softRules, hardRules, available, soft, widths);
      SameDry(natural, softRules, hardRules, soft);
      LeastIsDry(columns, natural);
    }
  }

  /** When the columns are all flexible, or none is, the table takes exactly the width it should. */
  lemma LayoutExact(columns: seq<Column>, natural: seq<int>, available: int, widths: seq<int>)
    requires |natural| == |columns| && available >= |columns| * 4
    requires LaidOut(natural, SoftRules(columns), HardRules(columns), available, widths)
    requires forall c: nat :: c < |columns| ==> MayShrink(columns, c)
    ensures Sum(widths) == Min(Sum(natural), available)
  {
    LayoutTotal(columns, natural, available, widths);
    LeastAtMostThree(columns, natural);
  }

  lemma LeastAtMostThree(columns: seq<Column>, natural: seq<int>)
    requires |natural| == |columns| && forall c: nat :: c < |columns| ==> MayShrink(columns, c)
    ensures Sum(Least(columns, natural)) <= |columns| * 3
  {
    var least := Least(columns, natural);
    forall c: nat | c < |least| ensures least[c] <= 3 {
      assert MayShrink(columns, c);
    }
    SumBound(least, 3);
  }
}
