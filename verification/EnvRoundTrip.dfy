/** Parsing what RenderEnv printed: pkg/env/domain/generate.go against pkg/env/domain/parse.go. */
module EnvRoundTrip {
  import opened Strings
  import opened EnvFile

  // ----- quoting

  function EscapedRune(c: char): string {
    match c
    case '\\' => "\\\\"
    case '"' => "\\\""
    case '\n' => "\\n"
    case '\r' => "\\r"
    case '\t' => "\\t"
    case '$' => "\\$"
    case _ => [c]
  }

  /** Escaping rune by rune. */
  function Escaped(val: string): string {
    if val == "" then "" else EscapedRune(val[0]) + Escaped(val[1..])
  }

  lemma {:induction false} ReplaceConcat(a: string, b: string, c: char, with: string)
    ensures ReplaceAll(a + b, c, with) == ReplaceAll(a, c, with) + ReplaceAll(b, c, with)
  {
    if a == "" {
      assert a + b == b;
    } else {
      assert (a + b)[1..] == a[1..] + b;
      ReplaceConcat(a[1..], b, c, with);
    }
  }

  lemma ReplaceShort(s: string, c: char, with: string)
    requires |s| <= 2
    ensures |s| == 1 ==> ReplaceAll(s, c, with) == if s[0] == c then with else s
    ensures |s| == 2 ==>
      ReplaceAll(s, c, with) == (if s[0] == c then with else [s[0]]) + (if s[1] == c then with else [s[1]])
  {
    if |s| >= 1 {
      assert s[1..] == if |s| == 1 then "" else [s[1]];
      assert ReplaceAll("", c, with) == "";
      if |s| == 2 {
        assert [s[1]][1..] == "";
      }
    }
  }

  lemma {:induction false} Untouched(s: string, c: char, with: string)
    requires c !in s
    ensures ReplaceAll(s, c, with) == s
  {
    if s != "" {
      Untouched(s[1..], c, with);
      assert s == [s[0]] + s[1..];
    }
  }

  /** Replacing one rune by a pair leaves other runes alone, and pairs that do not hold it. */
  lemma ReplaceOne(s: string, c: char, with: string)
    requires s == [c] || c !in s
    ensures ReplaceAll(s, c, with) == if s == [c] then with else s
  {
    if s == [c] {
      ReplaceShort(s, c, with);
    } else {
      Untouched(s, c, with);
    }
  }

  lemma ChainRune(c: char)
    ensures EscapeChain([c]) == EscapedRune(c)
  {
    ReplaceOne([c], '\\', "\\\\");
    var s1 := if c == '\\' then "\\\\" else [c];
    ReplaceOne(s1, '"', "\\\"");
    var s2 := if c == '"' then "\\\"" else s1;
    ReplaceOne(s2, '\n', "\\n");
    var s3 := if c == '\n' then "\\n" else s2;
    ReplaceOne(s3, '\r', "\\r");
    var s4 := if c == '\r' then "\\r" else s3;
    ReplaceOne(s4, '\t', "\\t");
    var s5 := if c == '\t' then "\\t" else s4;
    ReplaceOne(s5, '$', "\\$");
  }

  lemma ChainConcat(a: string, b: string)
    ensures EscapeChain(a + b) == EscapeChain(a) + EscapeChain(b)
  {
    ReplaceConcat(a, b, '\\', "\\\\");
    var a1, b1 := ReplaceAll(a, '\\', "\\\\"), ReplaceAll(b, '\\', "\\\\");
    ReplaceConcat(a1, b1, '"', "\\\"");
    var a2, b2 := ReplaceAll(a1, '"', "\\\""), ReplaceAll(b1, '"', "\\\"");
    ReplaceConcat(a2, b2, '\n', "\\n");
    var a3, b3 := ReplaceAll(a2, '\n', "\\n"), ReplaceAll(b2, '\n', "\\n");
    ReplaceConcat(a3, b3, '\r', "\\r");
    var a4, b4 := ReplaceAll(a3, '\r', "\\r"), ReplaceAll(b3, '\r', "\\r");
    ReplaceConcat(a4, b4, '\t', "\\t");
    ReplaceConcat(ReplaceAll(a4, '\t', "\\t"), ReplaceAll(b4, '\t', "\\t"), '$', "\\$");
  }

  /** The six chained replacements escape every rune once: none of them touches what an earlier one wrote. */
  lemma {:induction false} ChainIsEscaped(val: string)
    ensures EscapeChain(val) == Escaped(val)
  {
    if val == "" {
      assert ReplaceAll("", '\\', "\\\\") == "";
    } else {
      assert val == [val[0]] + val[1..];
      ChainConcat([val[0]], val[1..]);
      ChainRune(val[0]);
      ChainIsEscaped(val[1..]);
    }
  }

  /** The runes that an escape reads back as c. */
  predicate ReadsAs(e: string, c: char) {
    || (|e| == 1 && e[0] == c != '\\')
    || (|e| == 2 && e[0] == '\\' && UnescapedRune(e[1]) == c)
  }

  lemma EscapeReads(c: char)
    ensures ReadsAs(EscapedRune(c), c) && '\n' !in EscapedRune(c)
  {
  }

  lemma UnescapeStep(e: string, c: char, rest: string)
    requires ReadsAs(e, c)
    ensures Unescaped(e + rest) == [c] + Unescaped(rest)
  {
    assert (e + rest)[|e|..] == rest;
  }

  /** The unescaper undoes the escaper. */
  lemma {:induction false} UnescapeEscaped(val: string)
    ensures Unescaped(Escaped(val)) == val
    ensures '\n' !in Escaped(val)
  {
    if val != "" {
      UnescapeEscaped(val[1..]);
      EscapeReads(val[0]);
      UnescapeStep(EscapedRune(val[0]), val[0], Escaped(val[1..]));
    }
  }

  /** Unquoting a formatted value gives the value back; only an unquoted one may lose white space at its ends. */
  lemma UnquoteFormatted(val: string)
    ensures Unquoted(TrimSpace(FormatValue(val))) == if val == "" || NeedsQuotes(val) then val else TrimSpace(val)
    ensures '\n' !in FormatValue(val) && FormatValue(val) != ""
  {
    if val == "" {
      UnquoteQuoted("");
    } else if NeedsQuotes(val) {
      ChainIsEscaped(val);
      UnquoteQuoted(val);
    } else {
      UnquotePlain(val);
    }
  }

  lemma UnquoteQuoted(val: string)
    ensures Unquoted(TrimSpace("\"" + Escaped(val) + "\"")) == val
    ensures '\n' !in "\"" + Escaped(val) + "\""
  {
    UnescapeEscaped(val);
    var f := "\"" + Escaped(val) + "\"";
    TrimTrimmed(f);
    assert f[1..|f| - 1] == Escaped(val);
  }

  predicate Plain(s: string) {
    forall i :: 0 <= i < |s| ==> !ForcesQuotes(s[i])
  }

  lemma TrimmedPlain(val: string)
    requires Plain(val)
    ensures Plain(TrimSpace(val))
  {
    var left, right := TrimSplits(val);
    assert forall i :: 0 <= i < |TrimSpace(val)| ==> TrimSpace(val)[i] == val[|left| + i];
  }

  lemma PlainUnquotes(t: string)
    requires Plain(t) && TrimSpace(t) == t
    ensures Unquoted(t) == t
  {
  }

  lemma UnquotePlain(val: string)
    requires val != "" && !NeedsQuotes(val)
    ensures Unquoted(TrimSpace(val)) == TrimSpace(val)
    ensures '\n' !in val
  {
    var left, right := TrimSplits(val);
    assert Plain(val);
    TrimmedPlain(val);
    TrimTrimmed(TrimSpace(val));
    PlainUnquotes(TrimSpace(val));
  }

  // ----- one line

  /** The variable name in the text before the first '='. */
  function NameOf(before: string): string {
    var n := TrimLeft(before);
    if "export " <= n then TrimSpace(n[7..]) else TrimSpace(n)
  }

  lemma TrimOfLeft(s: string)
    ensures TrimSpace(TrimLeft(s)) == TrimSpace(s)
  {
    var left := TrimLeftSplits(s);
  }

  lemma TrimOfRight(s: string)
    ensures TrimSpace(TrimRight(s)) == TrimSpace(s)
  {
    var right := TrimRightSplits(s);
    var l, r := TrimSplits(TrimRight(s));
    var core := TrimSpace(TrimRight(s));
    assert s == l + core + (r + right);
    TrimPadded(l, core, r + right);
  }

  lemma CoreTrimmed(n: string, v: string)
    requires n == "" || !IsSpace(n[0])
    requires v == "" || !IsSpace(v[|v| - 1])
    ensures IsTrimmed(n + "=" + v)
  {
    var core := n + "=" + v;
    assert core[0] == if n == "" then '=' else n[0];
    assert core[|core| - 1] == if v == "" then '=' else v[|v| - 1];
  }

  lemma Regrouped(a: string, b: string, c: string, d: string)
    ensures (a + b) + "=" + (c + d) == a + (b + "=" + c) + d
  {
  }

  lemma TrimAround(before: string, after: string)
    ensures TrimSpace(before + "=" + after) == TrimLeft(before) + "=" + TrimRight(after)
  {
    var left := TrimLeftSplits(before);
    var right := TrimRightSplits(after);
    var n, v := TrimLeft(before), TrimRight(after);
    CoreTrimmed(n, v);
    Regrouped(left, n, v, right);
    TrimPadded(left, n + "=" + v, right);
  }

  lemma NotInPart(s: string, part: string, rest: string, c: char)
    requires c !in s && s == rest + part
    ensures c !in part
  {
    assert forall i :: 0 <= i < |part| ==> part[i] == s[|rest| + i];
  }

  lemma AssignmentShape(before: string, after: string)
    requires '=' !in before
    ensures ParseAssignment(before + "=" + after) ==
      if TrimSpace(before) == "" then NoName else Pair(TrimSpace(before), Unquoted(TrimSpace(after)))
  {
    var s := before + "=" + after;
    assert s[..|before|] == before && s[|before| + 1..] == after;
    IndexIs(s, '=', |before|);
  }

  lemma PrefixBeforeEquals(prefix: string, n: string, v: string)
    requires '=' !in prefix
    ensures prefix <= n + "=" + v <==> prefix <= n
  {
    var line := n + "=" + v;
    if |prefix| <= |n| {
      assert line[..|prefix|] == n[..|prefix|];
    } else {
      assert line[|n|] == '=' != prefix[|n|];
    }
  }

  /** How a line with '=' parses: the name is what stands before the first one, the value what follows. */
  lemma LineShape(before: string, after: string)
    requires '=' !in before
    ensures ParseLine(before + "=" + after) ==
      if "#" <= TrimLeft(before) then Skip
      else if NameOf(before) == "" then NoName
      else Pair(NameOf(before), Unquoted(TrimSpace(after)))
  {
    TrimAround(before, after);
    var n, v := TrimLeft(before), TrimRight(after);
    var line := n + "=" + v;
    var left := TrimLeftSplits(before);
    NotInPart(before, n, left, '=');
    PrefixBeforeEquals("#", n, v);
    PrefixBeforeEquals("export ", n, v);
    if "export " <= n {
      ExportedShape(n, v);
      TrimOfRight(after);
    } else {
      AssignmentShape(n, v);
      TrimOfRight(after);
    }
  }

  lemma ExportedShape(n: string, v: string)
    requires "export " <= n && '=' !in n
    ensures ParseAssignment(TrimSpace((n + "=" + v)[7..])) ==
      if TrimSpace(n[7..]) == "" then NoName else Pair(TrimSpace(n[7..]), Unquoted(TrimSpace(v)))
  {
    var m := n[7..];
    assert (n + "=" + v)[7..] == m + "=" + v;
    TrimAround(m, v);
    var left := TrimLeftSplits(m);
    NotInPart(n, TrimLeft(m), n[..7] + left, '=');
    AssignmentShape(TrimLeft(m), TrimRight(v));
    TrimOfLeft(m);
    TrimOfRight(v);
  }

  lemma ParseDropCR(line: string)
    ensures ParseLine(DropCR(line)) == ParseLine(line)
  {
    TrimOfRight(line);
    TrimOfRight(DropCR(line));
    assert TrimRight(line) == TrimRight(DropCR(line));
  }

  // ----- whole files

  /** The variables that line results leave, or None when one of them is an error. */
  function Folded(results: seq<LineResult>, env: map<string, string>): Option<map<string, string>> {
    if results == [] then Some(env)
    else
      match results[0]
      case Skip => Folded(results[1..], env)
      case Pair(key, value) => Folded(results[1..], env[key := value])
      case _ => None
  }

  lemma {:induction false} CollectFolds(results: seq<LineResult>, lineNum: nat, env: map<string, string>)
    ensures Folded(results, env) ==
      match Collect(results, lineNum, env)
      case Parsed(r) => Some(r)
      case _ => None
  {
    if results != [] {
      match results[0]
      case Pair(key, value) => CollectFolds(results[1..], lineNum + 1, env[key := value]);
      case _ => CollectFolds(results[1..], lineNum + 1, env);
    }
  }

  /** A trailing line that is skipped changes nothing, not even the error reported. */
  lemma {:induction false} CollectSkipLast(results: seq<LineResult>, lineNum: nat, env: map<string, string>)
    ensures Collect(results + [Skip], lineNum, env) == Collect(results, lineNum, env)
  {
    if results == [] {
      assert [] + [Skip] == [Skip];
      assert Collect([Skip][1..], lineNum + 1, env) == Parsed(env);
    } else {
      assert (results + [Skip])[1..] == results[1..] + [Skip];
      match results[0]
      case Pair(key, value) => CollectSkipLast(results[1..], lineNum + 1, env[key := value]);
      case _ => CollectSkipLast(results[1..], lineNum + 1, env);
    }
  }

  lemma ParseAllCons(line: string, lines: seq<string>)
    ensures ParseAll([line] + lines) == [ParseLine(line)] + ParseAll(lines)
  {
  }

  lemma ParseAllSnoc(lines: seq<string>, line: string)
    ensures ParseAll(lines + [line]) == ParseAll(lines) + [ParseLine(line)]
  {
  }

  lemma ParseWithoutCR(lines: seq<string>, scanned: seq<string>)
    requires |scanned| == |lines| && forall i :: 0 <= i < |lines| ==> scanned[i] == DropCR(lines[i])
    ensures ParseAll(scanned) == ParseAll(lines)
  {
    forall i | 0 <= i < |lines| ensures ParseLine(scanned[i]) == ParseLine(lines[i]) {
      ParseDropCR(lines[i]);
    }
  }

  /** Carriage returns and the empty last line make no difference: a file parses as its lines do. */
  lemma ParseByLines(content: string)
    ensures ParsedContent(content) == Collect(ParseAll(Split(content, '\n')), 0, map[])
  {
    var parts := Split(content, '\n');
    var init, last := parts[..|parts| - 1], parts[|parts| - 1];
    assert parts == init + [last];
    if last == "" {
      ParseWithoutCR(init, ScanLines(content));
      ParseAllSnoc(init, "");
      CollectSkipLast(ParseAll(init), 0, map[]);
    } else {
      ParseWithoutCR(parts, ScanLines(content));
    }
  }

  lemma FirstLine(line: string, rest: string)
    requires '\n' !in line
    ensures ParseAll(Split(line + "\n" + rest, '\n')) == [ParseLine(line)] + ParseAll(Split(rest, '\n'))
  {
    SplitStep(line, rest, '\n');
    ParseAllCons(line, Split(rest, '\n'));
  }

  /** Comment lines are skipped. */
  lemma {:induction false} CommentsSkipped(lines: seq<string>, rest: string, env: map<string, string>)
    requires forall l :: l in lines ==> '\n' !in l
    ensures Folded(ParseAll(Split(Concat(CommentLines(lines)) + rest, '\n')), env)
         == Folded(ParseAll(Split(rest, '\n')), env)
  {
    if lines == [] {
      assert Concat(CommentLines(lines)) + rest == rest;
    } else {
      var head := "# " + TrimSpace(lines[0]);
      var more := Concat(CommentLines(lines[1..])) + rest;
      CommentHead(lines[0]);
      assert CommentLines(lines)[1..] == CommentLines(lines[1..]);
      assert Concat(CommentLines(lines)) + rest == head + "\n" + more;
      FirstLine(head, more);
      assert ([Skip] + ParseAll(Split(more, '\n')))[1..] == ParseAll(Split(more, '\n'));
      CommentsSkipped(lines[1..], rest, env);
    }
  }

  lemma CommentHead(line: string)
    requires '\n' !in line
    ensures '\n' !in "# " + TrimSpace(line)
    ensures ParseLine("# " + TrimSpace(line)) == Skip
  {
    var head := "# " + TrimSpace(line);
    var left, right := TrimSplits(line);
    assert forall i :: 0 <= i < |TrimSpace(line)| ==> TrimSpace(line)[i] == line[|left| + i];
    assert head[0] == '#';
    assert TrimLeft(head) == head;
    var r := TrimRightSplits(head);
    assert TrimRight(head) == "" ==> r == head;
  }

  lemma BlockFirst(block: string, line: string, rest: string)
    ensures block + line + "\n" + rest == block + (line + "\n" + rest)
  {
  }

  /** The lines of one printed entry leave what its assignment line leaves. */
  lemma EntryParses(block: string, k: string, comments: map<string, string>, line: string, rest: string,
                    env: map<string, string>)
    requires block == CommentBlock(k, comments) && '\n' !in line
    ensures Folded(ParseAll(Split(block + line + "\n" + rest, '\n')), env)
         == Folded([ParseLine(line)] + ParseAll(Split(rest, '\n')), env)
  {
    var tail := line + "\n" + rest;
    FirstLine(line, rest);
    BlockFirst(block, line, rest);
    if k in comments && TrimSpace(comments[k]) != "" {
      CommentsSkipped(Split(comments[k], '\n'), tail, env);
    } else {
      assert block + tail == tail;
    }
  }

  /** The results of the entry lines of keys, in order. */
  function EntryResults(keys: seq<string>, values: map<string, string>): seq<LineResult>
    requires forall i :: 0 <= i < |keys| ==> keys[i] in values
  {
    seq(|keys|, i requires 0 <= i < |keys| => ParseLine(EntryLine(keys[i], values[keys[i]])))
  }

  function FileResults(keys: seq<string>, values: map<string, string>, comments: map<string, string>): seq<LineResult>
    requires forall i :: 0 <= i < |keys| ==> keys[i] in values
  {
    ParseAll(Split(Concat(Entries(keys, values, comments)), '\n'))
  }

  lemma HeadEntry(keys: seq<string>, values: map<string, string>, comments: map<string, string>,
                  env: map<string, string>)
    requires keys != [] && forall i :: 0 <= i < |keys| ==> keys[i] in values
    requires '\n' !in keys[0]
    ensures Folded(FileResults(keys, values, comments), env)
         == Folded([ParseLine(EntryLine(keys[0], values[keys[0]]))] + FileResults(keys[1..], values, comments), env)
  {
    var k := keys[0];
    UnquoteFormatted(values[k]);
    assert Entries(keys, values, comments)[1..] == Entries(keys[1..], values, comments);
    EntryParses(CommentBlock(k, comments), k, comments, EntryLine(k, values[k]),
                Concat(Entries(keys[1..], values, comments)), env);
  }

  lemma EmptyFile(values: map<string, string>, comments: map<string, string>, env: map<string, string>)
    ensures Folded(FileResults([], values, comments), env) == Some(env)
  {
    assert Split("", '\n') == [""];
    StepFolds(Skip, [], env);
    assert FileResults([], values, comments) == [Skip] + [];
  }

  /** The printed file leaves what its assignment lines leave. */
  lemma {:induction false} FileParses(keys: seq<string>, values: map<string, string>, comments: map<string, string>,
                                      env: map<string, string>)
    requires forall i :: 0 <= i < |keys| ==> keys[i] in values && '\n' !in keys[i]
    ensures Folded(FileResults(keys, values, comments), env) == Folded(EntryResults(keys, values), env)
  {
    if keys == [] {
      EmptyFile(values, comments, env);
    } else {
      forall e
        ensures Folded(FileResults(keys[1..], values, comments), e) == Folded(EntryResults(keys[1..], values), e)
      {
        FileParses(keys[1..], values, comments, e);
      }
      HeadEntry(keys, values, comments, env);
      HeadResult(keys, values);
      SameTail(EntryResults(keys, values)[0], FileResults(keys[1..], values, comments),
               EntryResults(keys[1..], values), env);
    }
  }

  lemma HeadResult(keys: seq<string>, values: map<string, string>)
    requires keys != [] && forall i :: 0 <= i < |keys| ==> keys[i] in values
    ensures EntryResults(keys, values)
         == [ParseLine(EntryLine(keys[0], values[keys[0]]))] + EntryResults(keys[1..], values)
  {
  }

  lemma SameTail(r: LineResult, a: seq<LineResult>, b: seq<LineResult>, env: map<string, string>)
    requires forall e :: Folded(a, e) == Folded(b, e)
    ensures Folded([r] + a, env) == Folded([r] + b, env)
  {
    StepFolds(r, a, env);
    StepFolds(r, b, env);
  }

  lemma StepFolds(r: LineResult, rest: seq<LineResult>, env: map<string, string>)
    ensures Folded([r] + rest, env) ==
      match r
      case Skip => Folded(rest, env)
      case Pair(key, value) => Folded(rest, env[key := value])
      case _ => None
  {
    assert ([r] + rest)[1..] == rest;
  }

  // ----- comments, whatever the names

  /** Folding in two parts. */
  function Then(first: Option<map<string, string>>, rest: seq<LineResult>): Option<map<string, string>> {
    match first
    case None => None
    case Some(env) => Folded(rest, env)
  }

  lemma {:induction false} FoldedConcat(x: seq<LineResult>, y: seq<LineResult>, env: map<string, string>)
    ensures Folded(x + y, env) == Then(Folded(x, env), y)
    decreases |x|
  {
    if x == [] {
      assert x + y == y;
    } else {
      assert x + y == [x[0]] + (x[1..] + y);
      StepFolds(x[0], x[1..] + y, env);
      match x[0]
      case Skip => FoldedConcat(x[1..], y, env);
      case Pair(key, value) => FoldedConcat(x[1..], y, env[key := value]);
      case _ =>
    }
  }

  /** What the text of one entry leaves does not depend on its comment. */
  lemma EntryFolds(k: string, val: string, comments: map<string, string>, rest: string, env: map<string, string>)
    ensures Folded(ParseAll(Split(CommentBlock(k, comments) + EntryLine(k, val) + "\n" + rest, '\n')), env)
         == Then(Folded(ParseAll(Split(EntryLine(k, val), '\n')), env), ParseAll(Split(rest, '\n')))
  {
    var block, line := CommentBlock(k, comments), EntryLine(k, val);
    var tail := line + "\n" + rest;
    BlockFirst(block, line, rest);
    if k in comments && TrimSpace(comments[k]) != "" {
      CommentsSkipped(Split(comments[k], '\n'), tail, env);
    } else {
      assert block + tail == tail;
    }
    TwoParts(line, rest, env);
  }

  lemma ParseAllConcat(a: seq<string>, b: seq<string>)
    ensures ParseAll(a + b) == ParseAll(a) + ParseAll(b)
  {
  }

  lemma TwoParts(line: string, rest: string, env: map<string, string>)
    ensures Folded(ParseAll(Split(line + "\n" + rest, '\n')), env)
         == Then(Folded(ParseAll(Split(line, '\n')), env), ParseAll(Split(rest, '\n')))
  {
    SplitConcat(line, rest, '\n');
    ParseAllConcat(Split(line, '\n'), Split(rest, '\n'));
    FoldedConcat(ParseAll(Split(line, '\n')), ParseAll(Split(rest, '\n')), env);
  }

  lemma ConcatHead(parts: seq<string>, head: string, tail: seq<string>)
    requires parts != [] && parts[0] == head && parts[1..] == tail
    ensures Concat(parts) == head + Concat(tail)
  {
  }

  lemma EntriesHead(keys: seq<string>, values: map<string, string>, comments: map<string, string>)
    requires keys != [] && forall i :: 0 <= i < |keys| ==> keys[i] in values
    ensures Concat(Entries(keys, values, comments)) ==
      CommentBlock(keys[0], comments) + EntryLine(keys[0], values[keys[0]]) + "\n"
      + Concat(Entries(keys[1..], values, comments))
  {
    var all := Entries(keys, values, comments);
    assert all[1..] == Entries(keys[1..], values, comments);
    ConcatHead(all, Entry(keys[0], values, comments), all[1..]);
  }

  lemma {:induction false} CommentsFold(keys: seq<string>, values: map<string, string>, ca: map<string, string>,
                                        cb: map<string, string>, env: map<string, string>)
    requires forall i :: 0 <= i < |keys| ==> keys[i] in values
    ensures Folded(FileResults(keys, values, ca), env) == Folded(FileResults(keys, values, cb), env)
  {
    if keys == [] {
      EmptyFile(values, ca, env);
      EmptyFile(values, cb, env);
    } else {
      var k, val := keys[0], values[keys[0]];
      EntriesHead(keys, values, ca);
      EntriesHead(keys, values, cb);
      EntryFolds(k, val, ca, Concat(Entries(keys[1..], values, ca)), env);
      EntryFolds(k, val, cb, Concat(Entries(keys[1..], values, cb)), env);
      var line := Folded(ParseAll(Split(EntryLine(k, val), '\n')), env);
      if line.Some? {
        CommentsFold(keys[1..], values, ca, cb, line.value);
      }
    }
  }

  lemma ParsesAsFolded(content: string, env: map<string, string>)
    ensures ParsedContent(content) == Parsed(env) <==> Folded(ParseAll(Split(content, '\n')), map[]) == Some(env)
  {
    ParseByLines(content);
    CollectFolds(ParseAll(Split(content, '\n')), 0, map[]);
  }

  lemma CommentsInOrder(keys: seq<string>, values: map<string, string>, ca: map<string, string>,
                        cb: map<string, string>, env: map<string, string>)
    requires forall i :: 0 <= i < |keys| ==> keys[i] in values
    ensures ParsedContent(Concat(Entries(keys, values, ca))) == Parsed(env) <==>
      ParsedContent(Concat(Entries(keys, values, cb))) == Parsed(env)
  {
    ParsesAsFolded(Concat(Entries(keys, values, ca)), env);
    ParsesAsFolded(Concat(Entries(keys, values, cb)), env);
    CommentsFold(keys, values, ca, cb, map[]);
  }

  /** Comments never change what a printed file is read as, whatever the names and values. */
  lemma CommentsNeverShow(a: string, b: string, values: map<string, string>, ca: map<string, string>,
                          cb: map<string, string>, env: map<string, string>)
    requires IsRendering(a, values, ca) && IsRendering(b, values, cb)
    ensures ParsedContent(a) == Parsed(env) <==> ParsedContent(b) == Parsed(env)
  {
    var ka :| Sorted(ka) && (forall k :: k in ka <==> k in values) && a == Concat(Entries(ka, values, ca));
    var kb :| Sorted(kb) && (forall k :: k in kb <==> k in values) && b == Concat(Entries(kb, values, cb));
    SortedUnique(ka, kb);
    CommentsInOrder(ka, values, ca, cb, env);
  }

  // ----- the round trip

  /** A name that survives: printed and parsed, it is still itself. */
  predicate GoodKey(k: string) {
    && k != "" && IsTrimmed(k) && '=' !in k && '\n' !in k
    && !("#" <= k) && !("export " <= k)
  }

  const SPECIAL := [' ', '\t', '\n', '"', '\'', '#', '$', '`', '\\']

  lemma NeedsQuotesIff(v: string)
    ensures NeedsQuotes(v) <==> exists i :: 0 <= i < |v| && v[i] in SPECIAL
  {
    assert forall c :: ForcesQuotes(c) <==> c in SPECIAL;
    if v != "" {
      assert " " <= v ==> v[0] == " "[0];
      if NeedsQuotes(v) {
        assert v[0] == ' ' || v[|v| - 1] == ' ' || exists i :: 0 <= i < |v| && ForcesQuotes(v[i]);
      }
    }
  }

  /** A value that survives: empty, with a rune that has it quoted, or without white space at its ends. */
  predicate GoodValue(v: string) {
    v == "" || IsTrimmed(v) || exists i :: 0 <= i < |v| && v[i] in SPECIAL
  }

  /** What parsing makes of a printed value. */
  function Reread(v: string): string {
    if v == "" || NeedsQuotes(v) then v else TrimSpace(v)
  }

  lemma GoodKeyParses(k: string, v: string)
    requires GoodKey(k)
    ensures ParseLine(EntryLine(k, v)) == Pair(k, Reread(v))
  {
    LineShape(k, FormatValue(v));
    UnquoteFormatted(v);
    assert TrimLeft(k) == k;
    TrimTrimmed(k);
  }

  /** No line gives a name longer than the one printed, and one as long is the printed one, which is good. */
  lemma ParsedKeyShorter(k: string, v: string)
    requires '\n' !in k && ParseLine(EntryLine(k, v)).Pair?
    ensures
      var key := ParseLine(EntryLine(k, v)).key;
      && |key| <= |k|
      && (|key| == |k| ==> key == k && GoodKey(k))
  {
    if '=' in k {
      CutKeyShorter(k, FormatValue(v));
    } else {
      WholeKeyShorter(k, FormatValue(v));
    }
  }

  lemma WholeKeyShorter(k: string, f: string)
    requires '=' !in k && ParseLine(k + "=" + f).Pair?
    ensures
      var key := ParseLine(k + "=" + f).key;
      && |key| <= |k|
      && (|key| == |k| ==> key == k && k != "" && IsTrimmed(k) && !("#" <= k) && !("export " <= k))
  {
    LineShape(k, f);
    NameShorter(k);
  }

  lemma FirstEquals(k: string, f: string) returns (before: string, after: string)
    requires '=' in k
    ensures k + "=" + f == before + "=" + after && '=' !in before && |before| < |k|
  {
    var i := Index(k, '=').value;
    before, after := k[..i], k[i + 1..] + "=" + f;
  }

  lemma CutKeyShorter(k: string, f: string)
    requires '=' in k && ParseLine(k + "=" + f).Pair?
    ensures |ParseLine(k + "=" + f).key| < |k|
  {
    var before, after := FirstEquals(k, f);
    LineShape(before, after);
    NameShorter(before);
  }

  lemma TrimLeftOf(s: string)
    ensures |TrimLeft(s)| <= |s| && (|TrimLeft(s)| == |s| ==> TrimLeft(s) == s)
    ensures forall c :: c in TrimLeft(s) ==> c in s
  {
    var left := TrimLeftSplits(s);
    assert forall c :: c in TrimLeft(s) ==> c in left + TrimLeft(s);
  }

  lemma TrimSpaceOf(s: string)
    ensures |TrimSpace(s)| <= |s| && (|TrimSpace(s)| == |s| ==> TrimSpace(s) == s)
    ensures forall c :: c in TrimSpace(s) ==> c in s
  {
    var left, right := TrimSplits(s);
    assert forall c :: c in TrimSpace(s) ==> c in left + TrimSpace(s) + right;
  }

  lemma NameShorter(before: string)
    requires NameOf(before) != ""
    ensures |NameOf(before)| <= |before|
    ensures |NameOf(before)| == |before| ==>
      NameOf(before) == before == TrimLeft(before) && IsTrimmed(before) && !("export " <= before)
    ensures forall c :: c in NameOf(before) ==> c in before
  {
    var n := TrimLeft(before);
    TrimLeftOf(before);
    if "export " <= n {
      TrimSpaceOf(n[7..]);
      assert forall c :: c in n[7..] ==> c in n;
    } else {
      var left, right := TrimSplits(n);
      TrimSpaceOf(n);
    }
  }

  /** Every key of a parsed file comes from the environment it started with or from a line. */
  lemma {:induction false} FoldedKeys(results: seq<LineResult>, env: map<string, string>, k: string)
    requires Folded(results, env).Some? && k in Folded(results, env).value
    ensures k in env || exists i :: 0 <= i < |results| && results[i].Pair? && results[i].key == k
  {
    if results != [] {
      match results[0]
      case Pair(key, value) =>
        FoldedKeys(results[1..], env[key := value], k);
        assert forall i :: 0 <= i < |results| - 1 ==> results[1..][i] == results[i + 1];
      case Skip =>
        FoldedKeys(results[1..], env, k);
        assert forall i :: 0 <= i < |results| - 1 ==> results[1..][i] == results[i + 1];
      case _ =>
    }
  }

  lemma LineKeyHasNoNewline(text: string)
    requires '\n' !in text && ParseLine(text).Pair?
    ensures '\n' !in ParseLine(text).key
  {
    var left, right := TrimSplits(text);
    assert forall c :: c in TrimSpace(text) ==> c in text;
    var line := TrimSpace(text);
    if "export " <= line {
      var l, r := TrimSplits(line[7..]);
      assert forall c :: c in line[7..] ==> c in line;
      assert forall c :: c in TrimSpace(line[7..]) ==> c in line[7..];
      AssignmentKeyIn(TrimSpace(line[7..]));
    } else {
      AssignmentKeyIn(line);
    }
  }

  lemma AssignmentKeyIn(line: string)
    requires ParseAssignment(line).Pair?
    ensures forall c :: c in ParseAssignment(line).key ==> c in line
  {
    var i := Index(line, '=').value;
    var left, right := TrimSplits(line[..i]);
    assert forall c :: c in line[..i] ==> c in line;
    assert forall c :: c in TrimSpace(line[..i]) ==> c in line[..i];
  }

  /** With good keys the file leaves exactly the reread values. */
  lemma {:induction false} GoodKeysFold(keys: seq<string>, values: map<string, string>, env: map<string, string>)
    requires forall i :: 0 <= i < |keys| ==> keys[i] in values && GoodKey(keys[i])
    ensures Folded(EntryResults(keys, values), env)
         == Some(env + RereadAll(keys, values))
  {
    if keys != [] {
      var k, v := keys[0], Reread(values[keys[0]]);
      GoodKeyParses(k, values[k]);
      HeadResult(keys, values);
      StepFolds(Pair(k, v), EntryResults(keys[1..], values), env);
      GoodKeysFold(keys[1..], values, env[k := v]);
      MapSplit(keys, values, env);
    } else {
      assert env + RereadAll(keys, values) == env;
    }
  }

  function RereadAll(keys: seq<string>, values: map<string, string>): map<string, string>
    requires forall i :: 0 <= i < |keys| ==> keys[i] in values
  {
    map k | k in keys :: Reread(values[k])
  }

  lemma MapSplit(keys: seq<string>, values: map<string, string>, env: map<string, string>)
    requires keys != [] && forall i :: 0 <= i < |keys| ==> keys[i] in values
    ensures env[keys[0] := Reread(values[keys[0]])] + RereadAll(keys[1..], values) == env + RereadAll(keys, values)
  {
    assert keys == [keys[0]] + keys[1..];
  }

  /** When the file parses back to values, every name at least n runes long is good. */
  lemma {:induction false} LongKeysGood(keys: seq<string>, values: map<string, string>, longest: nat, n: nat)
    requires forall k :: k in keys <==> k in values
    requires forall k :: k in values ==> |k| <= longest && '\n' !in k
    requires Folded(EntryResults(keys, values), map[]) == Some(values)
    ensures forall k :: k in values && |k| >= n ==>
      GoodKey(k) && ParseLine(EntryLine(k, values[k])).Pair? && ParseLine(EntryLine(k, values[k])).key == k
    decreases longest + 1 - n
  {
    if n <= longest {
      LongKeysGood(keys, values, longest, n + 1);
      forall k | k in values && |k| == n
        ensures GoodKey(k) && ParseLine(EntryLine(k, values[k])).Pair? && ParseLine(EntryLine(k, values[k])).key == k
      {
        var results := EntryResults(keys, values);
        FoldedKeys(results, map[], k);
        var i :| 0 <= i < |results| && results[i].Pair? && results[i].key == k;
        assert keys[i] in keys;
        ParsedKeyShorter(keys[i], values[keys[i]]);
      }
    }
  }

  function Longest(keys: seq<string>): (n: nat)
    ensures forall k :: k in keys ==> |k| <= n
  {
    if keys == [] then 0
    else
      var n := Longest(keys[1..]);
      assert forall k :: k in keys ==> k == keys[0] || k in keys[1..];
      if |keys[0]| > n then |keys[0]| else n
  }

  lemma RoundTripInOrder(keys: seq<string>, values: map<string, string>, comments: map<string, string>)
    requires forall k :: k in keys <==> k in values
    ensures ParsedContent(Concat(Entries(keys, values, comments))) == Parsed(values) <==>
            forall k :: k in values ==> GoodKey(k) && GoodValue(values[k])
  {
    var content := Concat(Entries(keys, values, comments));
    ParseByLines(content);
    var results := FileResults(keys, values, comments);
    CollectFolds(results, 0, map[]);
    if ParsedContent(content) == Parsed(values) {
      forall k | k in values ensures '\n' !in k {
        FoldedKeys(results, map[], k);
        var i :| 0 <= i < |results| && results[i].Pair? && results[i].key == k;
        LineKeyHasNoNewline(Split(content, '\n')[i]);
      }
      FileParses(keys, values, comments, map[]);
      LongKeysGood(keys, values, Longest(keys), 0);
    } else if forall k :: k in values ==> GoodKey(k) && GoodValue(values[k]) {
      FileParses(keys, values, comments, map[]);
    }
    if forall k :: k in values ==> GoodKey(k) {
      FileParses(keys, values, comments, map[]);
      GoodKeysFold(keys, values, map[]);
      ValuesReread(keys, values);
    }
  }

  /** ParseEnvContent reads back exactly what RenderEnv was given, whatever the comments, if and only if every
      name and every value is good. */
  lemma RoundTrip(buf: string, values: map<string, string>, comments: map<string, string>)
    requires IsRendering(buf, values, comments)
    ensures ParsedContent(buf) == Parsed(values) <==> forall k :: k in values ==> GoodKey(k) && GoodValue(values[k])
  {
    var keys :|
      Sorted(keys) && (forall k :: k in keys <==> k in values) && buf == Concat(Entries(keys, values, comments));
    RoundTripInOrder(keys, values, comments);
  }

  lemma ValuesReread(keys: seq<string>, values: map<string, string>)
    requires forall k :: k in keys <==> k in values
    ensures map[] + RereadAll(keys, values) == values <==>
            forall k :: k in values ==> GoodValue(values[k])
  {
    var reread := map[] + RereadAll(keys, values);
    forall k | k in values ensures reread[k] == values[k] <==> GoodValue(values[k]) {
      TrimTrimmed(values[k]);
      NeedsQuotesIff(values[k]);
    }
    assert reread.Keys == values.Keys;
  }

  /** A value that is one carriage return is not quoted, and does not come back. */
  lemma CarriageReturnLost(buf: string, comments: map<string, string>)
    requires IsRendering(buf, map["K" := "\r"], comments)
    ensures ParsedContent(buf) != Parsed(map["K" := "\r"])
  {
    assert "K" in map["K" := "\r"] && !GoodValue("\r");
    RoundTrip(buf, map["K" := "\r"], comments);
  }
}
