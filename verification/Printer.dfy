/** The printer of pkg/render/printer.go on a writer that does not fail.

    The printer keeps a capped count of the newlines it wrote last. Sheet says what it is for: the same calls on
    the whole text, looking back as far as needed. */
module Printer {
  import opened Strings

  /** Library code: styling, icons, the rule of a section, and the width of a string on the screen. */
  datatype Library = Library(
    title: string -> string, subtle: string -> string, icon: nat -> string, rule: string -> string,
    width: string -> nat)

  datatype Call =
    | Title(text: string) | Text(text: string) | Section(name: string) | KVs(pairs: seq<(string, string)>)
    | Line(status: nat, text: string) | Table(rendered: Option<string>) | Empty(what: string)
    | Summary(parts: seq<string>) | SummaryText(text: string) | Hint(text: string) | Blank

  /** How many newlines a text ends with. */
  function Newlines(text: string): (n: nat)
    ensures n <= |text|
  {
    if text != "" && text[|text| - 1] == '\n' then 1 + Newlines(text[..|text| - 1]) else 0
  }

  /** Everything written so far, and whether a key/value block still waits for its body. */
  datatype Sheet = Sheet(text: string, waiting: bool)

  function MaxWidth(lib: Library, pairs: seq<(string, string)>): nat {
    if pairs == [] then 0
    else
      var rest, w := MaxWidth(lib, pairs[..|pairs| - 1]), lib.width(pairs[|pairs| - 1].0);
      if w > rest then w else rest
  }

  lemma {:induction false} MaxWidthCovers(lib: Library, pairs: seq<(string, string)>, i: nat)
    requires i < |pairs|
    ensures lib.width(pairs[i].0) <= MaxWidth(lib, pairs)
  {
    if i < |pairs| - 1 {
      MaxWidthCovers(lib, pairs[..|pairs| - 1], i);
    }
  }

  /** One pair, its value in the column after the widest label. */
  function PairLine(lib: Library, pair: (string, string), width: nat): string {
    var pad := if width < lib.width(pair.0) then 0 else width - lib.width(pair.0);
    "  " + lib.subtle(pair.0) + (if pair.1 == "" then "" else Repeat(' ', pad) + "  " + pair.1) + "\n"
  }

  function PairLines(lib: Library, pairs: seq<(string, string)>, width: nat): string {
    if pairs == [] then ""
    else PairLines(lib, pairs[..|pairs| - 1], width) + PairLine(lib, pairs[|pairs| - 1], width)
  }

  /** The blank line a waiting block gets before its body. */
  function Separated(s: Sheet): string {
    if s.waiting && Newlines(s.text) < 2 then s.text + "\n" else s.text
  }

  /** The text before the rule of a section. */
  function BeforeRule(s: Sheet): string {
    var text := Separated(s);
    if text != "" && Newlines(text) < 2 then text + "\n" else text
  }

  function Do(lib: Library, s: Sheet, c: Call): Sheet {
    match c
    case Title(text) => Sheet(s.text + (lib.title(text) + "\n\n"), false)
    case Text(text) => Sheet(s.text + text, false)
    case Section(name) => Sheet(BeforeRule(s) + (lib.rule(name) + "\n"), false)
    case KVs(pairs) => if pairs == [] then s else Sheet(s.text + PairLines(lib, pairs, MaxWidth(lib, pairs)), true)
    case Line(status, text) =>
      Sheet(Separated(s) + ("  " + lib.icon(status) + (if text == "" then "" else "  " + text) + "\n"), false)
    case Table(rendered) => if rendered.None? then s else Sheet(Separated(s) + rendered.value, false)
    case Empty(what) => Sheet(Separated(s) + (lib.subtle("No " + what + " found.") + "\n"), false)
    case Summary(parts) => Sheet(if parts == [] then s.text else s.text + ("\n" + Join(parts, "  ") + "\n"), false)
    case SummaryText(text) => Sheet(s.text + ("\n" + text + "\n"), false)
    case Hint(text) => s.(text := s.text + (lib.subtle("  hint: " + text) + "\n"))
    case Blank => Sheet(s.text + "\n", false)
  }

  function DoAll(lib: Library, s: Sheet, calls: seq<Call>): Sheet
    decreases |calls|
  {
    if calls == [] then s else DoAll(lib, Do(lib, s, calls[0]), calls[1..])
  }

  // ----- newlines

  lemma NewlineAdds(text: string)
    ensures Newlines(text + "\n") == Newlines(text) + 1
  {
    assert (text + "\n")[..|text|] == text;
  }

  predicate OnlyNewlines(s: string) {
    forall i :: 0 <= i < |s| ==> s[i] == '\n'
  }

  /** Only what follows the last rune that is not a newline counts. */
  lemma {:induction false} NewlinesAppend(text: string, more: string)
    ensures Newlines(text + more) == if OnlyNewlines(more) then Newlines(text) + |more| else Newlines(more)
    decreases |more|
  {
    if more == "" {
      assert text + more == text;
    } else {
      var init, last := more[..|more| - 1], more[|more| - 1];
      assert (text + more)[..|text + more| - 1] == text + init;
      if last == '\n' {
        NewlinesAppend(text, init);
        assert OnlyNewlines(more) <==> OnlyNewlines(init);
      }
    }
  }

  lemma PairLinesNext(lib: Library, text: string, pairs: seq<(string, string)>, width: nat, i: nat)
    requires i < |pairs|
    ensures text + PairLines(lib, pairs[..i], width) + PairLine(lib, pairs[i], width) ==
      text + PairLines(lib, pairs[..i + 1], width)
  {
    assert pairs[..i + 1][..i] == pairs[..i];
  }

  // ----- what a reader sees

  ghost predicate Waits(s: Sheet) {
    s.waiting ==> Newlines(s.text) >= 1
  }

  lemma PairLinesEnd(lib: Library, text: string, pairs: seq<(string, string)>, width: nat)
    requires pairs != []
    ensures Newlines(text + PairLines(lib, pairs, width)) ==
      Newlines(text + PairLines(lib, pairs[..|pairs| - 1], width) + PairLine(lib, pairs[|pairs| - 1], width))
    ensures Newlines(text + PairLines(lib, pairs, width)) >= 1
  {
    var before, last := PairLines(lib, pairs[..|pairs| - 1], width), PairLine(lib, pairs[|pairs| - 1], width);
    assert text + (before + last) == text + before + last;
    assert last == last[..|last| - 1] + "\n";
    NewlineAdds(text + before + last[..|last| - 1]);
    assert text + before + last == text + before + last[..|last| - 1] + "\n";
  }

  lemma DoKeepsWaits(lib: Library, s: Sheet, c: Call)
    requires Waits(s)
    ensures Waits(Do(lib, s, c))
  {
    match c {
      case KVs(pairs) =>
        if pairs != [] {
          PairLinesEnd(lib, s.text, pairs, MaxWidth(lib, pairs));
        }
      case Hint(text) =>
        NewlineAdds(s.text + lib.subtle("  hint: " + text));
        assert s.text + (lib.subtle("  hint: " + text) + "\n") == s.text + lib.subtle("  hint: " + text) + "\n";
      case _ =>
    }
  }

  lemma {:induction false} AlwaysWaits(lib: Library, s: Sheet, calls: seq<Call>)
    requires Waits(s)
    ensures Waits(DoAll(lib, s, calls))
    decreases |calls|
  {
    if calls != [] {
      DoKeepsWaits(lib, s, calls[0]);
      AlwaysWaits(lib, Do(lib, s, calls[0]), calls[1..]);
    }
  }

  /** After any calls, a section writes its rule, and before it one newline unless nothing was written or a blank line
      was left. So the rule comes after a blank line exactly when the output ended its line. */
  lemma SectionAfterBlankIff(lib: Library, calls: seq<Call>, name: string)
    ensures
      var s := DoAll(lib, Sheet("", false), calls);
      var gap := if s.text == "" || Newlines(s.text) >= 2 then "" else "\n";
      && Do(lib, s, Section(name)) == Sheet(s.text + gap + (lib.rule(name) + "\n"), false)
      && (s.text != "" ==> (Newlines(s.text + gap) >= 2 <==> Newlines(s.text) >= 1))
  {
    var s := DoAll(lib, Sheet("", false), calls);
    AlwaysWaits(lib, Sheet("", false), calls);
    NewlineAdds(s.text);
    NewlineAdds(s.text + "\n");
    assert s.text + "" == s.text;
  }

  /** The newlines after a key/value block are those of its last line. */
  lemma LastLineNewlines(lib: Library, text: string, pairs: seq<(string, string)>, width: nat)
    requires pairs != []
    ensures
      var last := PairLine(lib, pairs[|pairs| - 1], width);
      Newlines(text + PairLines(lib, pairs, width)) == Newlines(last[..|last| - 1]) + 1
  {
    var before, last := PairLines(lib, pairs[..|pairs| - 1], width), PairLine(lib, pairs[|pairs| - 1], width);
    PairLinesEnd(lib, text, pairs, width);
    NewlinesAppend(text + before, last);
    assert last[0] == ' ';
    assert !OnlyNewlines(last);
    assert last == last[..|last| - 1] + "\n";
    NewlineAdds(last[..|last| - 1]);
  }

  /** What the line of a pair shows last: its value, or the label where there is none. */
  function LastShown(lib: Library, pair: (string, string)): string {
    if pair.1 == "" then lib.subtle(pair.0) else pair.1
  }

  lemma AfterBlanks(blanks: string, shown: string)
    requires blanks != "" && blanks[|blanks| - 1] == ' '
    ensures Newlines(blanks + shown) == Newlines(shown)
  {
    NewlinesAppend(blanks, shown);
    if OnlyNewlines(shown) {
      NewlinesAppend("", shown);
      assert "" + shown == shown;
    }
  }

  lemma PairNewlines(lib: Library, pair: (string, string), width: nat)
    ensures
      var line := PairLine(lib, pair, width);
      Newlines(line[..|line| - 1]) == Newlines(LastShown(lib, pair))
  {
    var line := PairLine(lib, pair, width);
    if pair.1 == "" {
      assert line[..|line| - 1] == "  " + lib.subtle(pair.0);
      AfterBlanks("  ", lib.subtle(pair.0));
    } else {
      var pad := if width < lib.width(pair.0) then 0 else width - lib.width(pair.0);
      var blanks := "  " + lib.subtle(pair.0) + Repeat(' ', pad) + "  ";
      assert line[..|line| - 1] == blanks + pair.1;
      AfterBlanks(blanks, pair.1);
    }
  }

  lemma BlockNewlines(lib: Library, text: string, pairs: seq<(string, string)>, width: nat)
    requires pairs != []
    ensures Newlines(text + PairLines(lib, pairs, width)) == Newlines(LastShown(lib, pairs[|pairs| - 1])) + 1
  {
    LastLineNewlines(lib, text, pairs, width);
    PairNewlines(lib, pairs[|pairs| - 1], width);
  }

  /** The calls that write a body: what they write, whatever came before. */
  predicate IsBody(c: Call) {
    c.Section? || c.Line? || c.Empty? || (c.Table? && c.rendered.Some?)
  }

  function BodyText(lib: Library, c: Call): string
    requires IsBody(c)
  {
    match c
    case Section(name) => lib.rule(name) + "\n"
    case Line(status, text) => "  " + lib.icon(status) + (if text == "" then "" else "  " + text) + "\n"
    case Empty(what) => lib.subtle("No " + what + " found.") + "\n"
    case Table(rendered) => rendered.value
  }

  /** The body after a key/value block stands by itself when a newline is put before it, unless the block already left
      a blank line. So there is exactly one blank line between them if and only if the last value, or without a
      value the last label, ends with at most one newline. */
  lemma OneBlankAfterKvsIff(lib: Library, s: Sheet, pairs: seq<(string, string)>, body: Call)
    requires pairs != [] && IsBody(body)
    ensures
      var after, shown := Do(lib, s, KVs(pairs)), LastShown(lib, pairs[|pairs| - 1]);
      var gap := if Newlines(shown) == 0 then "\n" else "";
      && Do(lib, after, body) == Sheet(after.text + gap + BodyText(lib, body), false)
      && (Newlines(after.text + gap) == 2 <==> Newlines(shown) <= 1)
  {
    var width := MaxWidth(lib, pairs);
    BlockNewlines(lib, s.text, pairs, width);
    NewlineAdds(s.text + PairLines(lib, pairs, width));
    var after := s.text + PairLines(lib, pairs, width);
    assert after + "" == after;
    BodyAfter(lib, Sheet(after, true), body);
  }

  lemma BodyAfter(lib: Library, s: Sheet, body: Call)
    requires s.waiting && Newlines(s.text) >= 1 && IsBody(body)
    ensures Do(lib, s, body) ==
      Sheet((if Newlines(s.text) < 2 then s.text + "\n" else s.text) + BodyText(lib, body), false)
  {
    NewlineAdds(s.text);
  }

  /** A line for each pair, with the values, where there are any, in one column. */
  predicate IsBlock(lib: Library, block: string, pairs: seq<(string, string)>, column: nat)
    requires forall i :: 0 <= i < |pairs| ==> lib.width(pairs[i].0) <= column
  {
    if pairs == [] then block == ""
    else
      var n := |pairs| - 1;
      var key, value := pairs[n].0, pairs[n].1;
      var shown := if value == "" then "" else Repeat(' ', column - lib.width(key)) + value;
      var line := "  " + lib.subtle(key) + shown + "\n";
      && |line| <= |block| && block[|block| - |line|..] == line
      && IsBlock(lib, block[..|block| - |line|], pairs[..n], column)
  }

  lemma {:induction false} LinesAreBlock(lib: Library, pairs: seq<(string, string)>, width: nat)
    requires forall i :: 0 <= i < |pairs| ==> lib.width(pairs[i].0) <= width
    ensures IsBlock(lib, PairLines(lib, pairs, width), pairs, width + 2)
  {
    if pairs != [] {
      var n := |pairs| - 1;
      var key, value := pairs[n].0, pairs[n].1;
      LinesAreBlock(lib, pairs[..n], width);
      RepeatTwo(width - lib.width(key));
      var pad := Repeat(' ', width - lib.width(key));
      assert pad + "  " + value == Repeat(' ', width - lib.width(key) + 2) + value;
      var init, line := PairLines(lib, pairs[..n], width), PairLine(lib, pairs[n], width);
      assert (init + line)[|init + line| - |line|..] == line && (init + line)[..|init + line| - |line|] == init;
    }
  }

  /** A block that is not empty writes one line for each pair, in order, with the values in one column, two blanks
      behind the widest label; an empty one writes nothing. */
  lemma BlockMeans(lib: Library, s: Sheet, pairs: seq<(string, string)>) returns (block: string, column: nat)
    requires pairs != []
    ensures Do(lib, s, KVs([])) == s && Do(lib, s, KVs(pairs)) == Sheet(s.text + block, true)
    ensures forall i :: 0 <= i < |pairs| ==> lib.width(pairs[i].0) + 2 <= column
    ensures exists j :: 0 <= j < |pairs| && column == lib.width(pairs[j].0) + 2
    ensures IsBlock(lib, block, pairs, column)
  {
    var width := MaxWidth(lib, pairs);
    forall k | 0 <= k < |pairs| ensures lib.width(pairs[k].0) <= width {
      MaxWidthCovers(lib, pairs, k);
    }
    var j := Widest(lib, pairs);
    block, column := PairLines(lib, pairs, width), width + 2;
    LinesAreBlock(lib, pairs, width);
  }

  lemma RepeatTwo(n: nat)
    ensures Repeat(' ', n) + "  " == Repeat(' ', n + 2)
  {
  }

  lemma {:induction false} Widest(lib: Library, pairs: seq<(string, string)>) returns (j: nat)
    requires pairs != []
    ensures j < |pairs| && lib.width(pairs[j].0) == MaxWidth(lib, pairs)
  {
    var n := |pairs| - 1;
    if n > 0 && lib.width(pairs[n].0) <= MaxWidth(lib, pairs[..n]) {
      j := Widest(lib, pairs[..n]);
    } else {
      j := n;
      assert n == 0 ==> MaxWidth(lib, pairs[..n]) == 0;
    }
  }

  /** What the other calls write. */
  lemma OtherCalls(lib: Library, s: Sheet, text: string, parts: seq<string>)
    ensures Do(lib, s, Title(text)) == Sheet(s.text + (lib.title(text) + "\n\n"), false)
    ensures Do(lib, s, Text(text)) == Sheet(s.text + text, false)
    ensures Do(lib, s, SummaryText(text)) == Sheet(s.text + ("\n" + text + "\n"), false)
    ensures Do(lib, s, Hint(text)) == Sheet(s.text + (lib.subtle("  hint: " + text) + "\n"), s.waiting)
    ensures Do(lib, s, Blank) == Sheet(s.text + "\n", false)
    ensures Do(lib, s, Summary(parts)) ==
      Sheet(s.text + if parts == [] then "" else "\n" + Join(parts, "  ") + "\n", false)
    ensures Do(lib, s, KVs([])) == Do(lib, s, Table(None)) == s
  {
    assert s.text + "" == s.text;
  }

  /** A section after text that does not end its line only ends the line. */
  lemma SectionAfterOpenLine(lib: Library, name: string)
    ensures DoAll(lib, Sheet("", false), [Text("x"), Section(name)]) == Sheet("x\n" + (lib.rule(name) + "\n"), false)
  {
    var calls := [Text("x"), Section(name)];
    assert calls[1..] == [Section(name)] && [Section(name)][1..] == [] && "" + "x" == "x";
    assert Newlines("x") == 0 && "x" + "\n" == "x\n";
    var before := Sheet("x", false);
    assert DoAll(lib, before, [Section(name)]) == DoAll(lib, Do(lib, before, Section(name)), []);
  }

  /** A value that ends with two newlines leaves two blank lines before the body that follows. */
  lemma TwoBlanksAfterKvs(lib: Library, s: Sheet, name: string, body: Call)
    requires IsBody(body)
    ensures
      var after := Do(lib, s, KVs([(name, "v\n\n")]));
      Do(lib, after, body) == Sheet(after.text + BodyText(lib, body), false) && Newlines(after.text) == 3
  {
    var pairs := [(name, "v\n\n")];
    var after := Do(lib, s, KVs(pairs));
    BlockNewlines(lib, s.text, pairs, MaxWidth(lib, pairs));
    assert "v\n\n" == "v" + "\n" + "\n";
    NewlineAdds("v");
    NewlineAdds("v" + "\n");
    BodyAfter(lib, after, body);
  }

  // ----- the printer

  class Printer {
    /** What the writer received. */
    var text: string
    var wrote: bool
    var tailNewlines: nat
    var needsBlankAfterKV: bool
    const lib: Library

    constructor (lib: Library)
      ensures Valid() && Value() == Sheet("", false) && this.lib == lib
    {
      text, wrote, tailNewlines, needsBlankAfterKV, this.lib := "", false, 0, false, lib;
    }

    /** The counter is exactly the number of newlines at the end of all output, up to two. */
    ghost predicate Valid()
      reads this
    {
      tailNewlines == Min(2, Newlines(text)) && (wrote <==> text != "")
    }

    function Value(): Sheet
      reads this
    {
      Sheet(text, needsBlankAfterKV)
    }

    /** Counts the newlines a text ends with, up to two. */
    static method TrailingNewlines(s: string) returns (n: nat)
      ensures n == Min(2, Newlines(s))
    {
      n := 0;
      var i := |s|;
      assert s[..i] == s;
      while i > 0 && s[i - 1] == '\n' && n < 2
        invariant 0 <= i <= |s| && n == |s| - i <= 2
        invariant Newlines(s) == n + Newlines(s[..i])
      {
        assert s[..i][..i - 1] == s[..i - 1];
        n := n + 1;
        i := i - 1;
      }
    }

    method Write(s: string)
      requires Valid()
      modifies this`text, this`wrote, this`tailNewlines
      ensures Valid() && text == old(text) + s
    {
      if s == "" {
        return;
      }
      NewlinesAppend(text, s);
      text := text + s;
      wrote := true;
      if OnlyNewlines(s) {
        tailNewlines := tailNewlines + |s|;
        if tailNewlines > 2 {
          tailNewlines := 2;
        }
        return;
      }
      tailNewlines := TrailingNewlines(s);
    }

    method SeparateAfterKVs()
      requires Valid()
      modifies this
      ensures Valid() && Value() == Sheet(Separated(old(Value())), false)
    {
      if !needsBlankAfterKV {
        return;
      }
      needsBlankAfterKV := false;
      if tailNewlines < 2 {
        Write("\n");
      }
    }

    method PrintSection(name: string)
      requires Valid()
      modifies this
      ensures Valid() && Value() == Sheet(BeforeRule(old(Value())) + (lib.rule(name) + "\n"), false)
    {
      SeparateAfterKVs();
      EndWithBlank();
      Write(lib.rule(name) + "\n");
    }

    /** The blank line a section adds when there is output that does not end with one. */
    method EndWithBlank()
      requires Valid()
      modifies this`text, this`wrote, this`tailNewlines
      ensures Valid() && text == if old(text) != "" && Newlines(old(text)) < 2 then old(text) + "\n" else old(text)
    {
      if wrote && tailNewlines < 2 {
        Write("\n");
      }
    }

    /** The width of the widest label. */
    static method LabelWidth(lib: Library, pairs: seq<(string, string)>) returns (width: nat)
      ensures width == MaxWidth(lib, pairs)
    {
      width := 0;
      for i := 0 to |pairs|
        invariant width == MaxWidth(lib, pairs[..i])
      {
        assert pairs[..i + 1][..i] == pairs[..i];
        if lib.width(pairs[i].0) > width {
          width := lib.width(pairs[i].0);
        }
      }
      assert pairs[..|pairs|] == pairs;
    }

    method PrintPair(pair: (string, string), width: nat)
      requires Valid() && width >= lib.width(pair.0)
      modifies this`text, this`wrote, this`tailNewlines
      ensures Valid() && text == old(text) + PairLine(lib, pair, width)
    {
      var line := "  " + lib.subtle(pair.0);
      if pair.1 != "" {
        line := line + (Repeat(' ', width - lib.width(pair.0)) + "  " + pair.1);
      }
      Write(line + "\n");
    }

    method PrintKVs(pairs: seq<(string, string)>)
      requires Valid()
      modifies this
      ensures Valid() && Value() == if pairs == [] then old(Value())
        else Sheet(old(text) + PairLines(lib, pairs, MaxWidth(lib, pairs)), true)
    {
      if |pairs| == 0 {
        return;
      }
      var width := LabelWidth(lib, pairs);
      for i := 0 to |pairs|
        invariant Valid() && text == old(text) + PairLines(lib, pairs[..i], width)
      {
        MaxWidthCovers(lib, pairs, i);
        PairLinesNext(lib, old(text), pairs, width, i);
        PrintPair(pairs[i], width);
      }
      assert pairs[..|pairs|] == pairs;
      needsBlankAfterKV := true;
    }

    method PrintLine(status: nat, t: string)
      requires Valid()
      modifies this
      ensures Valid() && Value() == Sheet(Separated(old(Value()))
        + ("  " + lib.icon(status) + (if t == "" then "" else "  " + t) + "\n"), false)
    {
      var line := "  " + lib.icon(status);
      if t != "" {
        line := line + ("  " + t);
      }
      PrintBody(line + "\n");
    }

    /** A body that a waiting block is separated from. */
    method PrintBody(body: string)
      requires Valid()
      modifies this
      ensures Valid() && Value() == Sheet(Separated(old(Value())) + body, false)
    {
      SeparateAfterKVs();
      Write(body);
    }

    method PrintSummary(parts: seq<string>)
      requires Valid()
      modifies this
      ensures Valid() && Value() ==
        Sheet(if parts == [] then old(text) else old(text) + ("\n" + Join(parts, "  ") + "\n"), false)
    {
      needsBlankAfterKV := false;
      if |parts| == 0 {
        return;
      }
      Write("\n" + Join(parts, "  ") + "\n");
    }

    /** A text that no waiting block is separated from. */
    method PrintText(body: string)
      requires Valid()
      modifies this
      ensures Valid() && Value() == Sheet(old(text) + body, false)
    {
      needsBlankAfterKV := false;
      Write(body);
    }

    method PrintHint(t: string)
      requires Valid()
      modifies this
      ensures Valid() && Value() == old(Value()).(text := old(text) + (lib.subtle("  hint: " + t) + "\n"))
    {
      Write(lib.subtle("  hint: " + t) + "\n");
    }

    method PrintTable(rendered: Option<string>)
      requires Valid()
      modifies this
      ensures Valid() && Value() ==
        if rendered.None? then old(Value()) else Sheet(Separated(old(Value())) + rendered.value, false)
    {
      if rendered.Some? {
        PrintBody(rendered.value);
      }
    }

    /** One call of any kind. */
    method Print(c: Call)
      requires Valid()
      modifies this
      ensures Valid() && Value() == Do(lib, old(Value()), c)
    {
      match c {
        case Title(t) => PrintText(lib.title(t) + "\n\n");
        case Text(t) => PrintText(t);
        case Section(name) => PrintSection(name);
        case KVs(pairs) => PrintKVs(pairs);
        case Line(status, t) => PrintLine(status, t);
        case Table(rendered) => PrintTable(rendered);
        case Empty(what) => PrintBody(lib.subtle("No " + what + " found.") + "\n");
        case Summary(parts) => PrintSummary(parts);
        case SummaryText(t) => PrintText("\n" + t + "\n");
        case Hint(t) => PrintHint(t);
        case Blank => PrintText("\n");
      }
    }

    /** Any sequence of calls writes what looking back over the whole text would. */
    method PrintAll(calls: seq<Call>)
      requires Valid()
      modifies this
      ensures Valid() && Value() == DoAll(lib, old(Value()), calls)
    {
      ghost var all := DoAll(lib, Value(), calls);
      for i := 0 to |calls|
        invariant Valid() && DoAll(lib, Value(), calls[i..]) == all
      {
        assert calls[i..][1..] == calls[i + 1..];
        Print(calls[i]);
      }
    }
  }
}
