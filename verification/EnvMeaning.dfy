/** What env files mean, line by line and rune by rune: pkg/env/domain/parse.go and pkg/env/domain/generate.go. */
module EnvMeaning {
  import opened Strings
  import opened EnvFile
  import opened EnvRoundTrip

  // ----- values

  /** A blank and a hash sign stand at i. */
  predicate CommentAt(raw: string, i: nat) {
    i + 1 < |raw| && raw[i] == ' ' && raw[i + 1] == '#'
  }

  predicate InQuotes(raw: string, q: char) {
    |raw| >= 2 && raw[0] == q && raw[|raw| - 1] == q
  }

  lemma {:induction false} CommentIndexIs(raw: string)
    ensures
      match CommentIndex(raw)
      case Some(i) => CommentAt(raw, i) && forall j :: 0 <= j < i ==> !CommentAt(raw, j)
      case None => forall j :: 0 <= j < |raw| ==> !CommentAt(raw, j)
  {
    if raw != "" {
      var rest := raw[1..];
      assert " #"[0] == ' ' && " #"[1] == '#';
      assert CommentAt(raw, 0) <==> " #" <= raw;
      assert forall j :: 0 < j < |raw| ==> (CommentAt(raw, j) <==> CommentAt(rest, j - 1));
      CommentIndexIs(rest);
    }
  }

  lemma TrimTwice(s: string)
    ensures TrimSpace(TrimSpace(s)) == TrimSpace(s)
  {
    var left, right := TrimSplits(s);
    TrimTrimmed(TrimSpace(s));
  }

  /** A value without quotes ends before the first blank that a hash sign follows. */
  lemma UnquoteComment(text: string, comment: string)
    requires !InQuotes(text + " #" + comment, '"') && !InQuotes(text + " #" + comment, '\'')
    requires forall j :: 0 <= j < |text| ==> !CommentAt(text + " #" + comment, j)
    ensures Unquoted(text + " #" + comment) == TrimSpace(text)
  {
    var raw := text + " #" + comment;
    assert raw[|text|] == " #"[0] && raw[|text| + 1] == " #"[1];
    assert CommentAt(raw, |text|);
    CommentIndexIs(raw);
    assert CommentIndex(raw) == Some(|text|);
    assert raw[..|text|] == text;
    TrimTwice(text);
  }

  /** Without such a blank it is all of the text, unless that starts with a hash sign. */
  lemma UnquoteBare(raw: string)
    requires !InQuotes(raw, '"') && !InQuotes(raw, '\'')
    requires forall j :: 0 <= j < |raw| ==> !CommentAt(raw, j)
    ensures Unquoted(raw) == if raw != "" && raw[0] == '#' then "" else TrimSpace(raw)
  {
    CommentIndexIs(raw);
    if raw != "" {
      assert "#" <= raw <==> raw[0] == "#"[0];
    }
    TrimTrimmed("");
  }

  /** What stands in single quotes is taken as it is. */
  lemma UnquoteSingle(x: string)
    ensures Unquoted("'" + x + "'") == x
  {
    var raw := "'" + x + "'";
    assert raw[0] == '\'' && raw[|raw| - 1] == '\'' && raw[1..|raw| - 1] == x;
  }

  /** What stands in double quotes is taken without the backslashes before its runes: */
  lemma UnquoteDouble(x: string)
    ensures Unquoted("\"" + x + "\"") == Unescaped(x)
  {
    var raw := "\"" + x + "\"";
    assert raw[0] == '"' && raw[|raw| - 1] == '"' && raw[1..|raw| - 1] == x;
  }

  /** runes before the first backslash as they are, */
  lemma {:induction false} UnescapePlain(text: string, rest: string)
    requires '\\' !in text
    ensures Unescaped(text + rest) == text + Unescaped(rest)
  {
    if text == "" {
      assert text + rest == rest;
    } else {
      assert (text + rest)[1..] == text[1..] + rest;
      UnescapePlain(text[1..], rest);
    }
  }

  /** and a backslash with the rune after it as a line feed, carriage return or tab for n, r and t, and otherwise as
      that rune alone; a last backslash stays. */
  lemma UnescapeBackslash(c: char, rest: string)
    ensures Unescaped("\\" + [c] + rest) ==
      [if c == 'n' then '\n' else if c == 'r' then '\r' else if c == 't' then '\t' else c] + Unescaped(rest)
    ensures Unescaped("\\") == "\\"
  {
    assert ("\\" + [c] + rest)[2..] == rest;
    assert "\\"[1..] == "" && Unescaped("") == "";
  }

  // ----- lines

  /** A line without an equals sign is skipped when it is blank or a comment, and an error otherwise. */
  lemma LineWithoutEquals(line: string)
    requires '=' !in line
    ensures ParseLine(line) == if TrimSpace(line) == "" || TrimSpace(line)[0] == '#' then Skip else NoEquals
  {
    var t := TrimSpace(line);
    var left, right := TrimSplits(line);
    assert forall i :: 0 <= i < |t| ==> t[i] == line[|left| + i];
    if t != "" {
      assert "#" <= t <==> t[0] == "#"[0];
      if "export " <= t {
        var l, r := TrimSplits(t[7..]);
        var u := TrimSpace(t[7..]);
        assert forall i :: 0 <= i < |u| ==> u[i] == t[7..][|l| + i] == t[7 + |l| + i];
        assert '=' !in u;
        assert Index(u, '=') == None;
      } else {
        assert '=' !in t;
        assert Index(t, '=') == None;
      }
    }
  }

  /** A line with one names what stands before the first, after export if it starts with that word, and gives it
      what stands behind; a comment is skipped, and a blank name is an error. */
  lemma LineWithEquals(before: string, after: string)
    requires '=' !in before
    ensures
      var start := TrimLeft(before);
      var name := if |start| >= 7 && start[..7] == "export " then TrimSpace(start[7..]) else TrimSpace(before);
      ParseLine(before + "=" + after) ==
        if start != "" && start[0] == '#' then Skip
        else if name == "" then NoName
        else Pair(name, Unquoted(TrimSpace(after)))
  {
    LineShape(before, after);
    TrimOfLeft(before);
    var start := TrimLeft(before);
    if start != "" {
      assert "#" <= start <==> start[0] == "#"[0];
    }
  }

  // ----- files

  predicate IsError(r: LineResult) {
    r.NoEquals? || r.NoName?
  }

  /** Line i is the last that gives the variable its value. */
  predicate LastFor(results: seq<LineResult>, i: nat, key: string) {
    && i < |results| && results[i].Pair? && results[i].key == key
    && forall j :: i < j < |results| && results[j].Pair? ==> results[j].key != key
  }

  ghost predicate Reads(results: seq<LineResult>, lineNum: nat, env: map<string, string>, r: ParseResult) {
    match r
    case Parsed(out) =>
      && (forall i :: 0 <= i < |results| ==> !IsError(results[i]))
      && (forall key, i: nat :: LastFor(results, i, key) ==> key in out && out[key] == results[i].value)
      && (forall key :: (forall i :: 0 <= i < |results| && results[i].Pair? ==> results[i].key != key) ==>
            if key in env then key in out && out[key] == env[key] else key !in out)
    case MissingEquals(n) =>
      && lineNum < n <= lineNum + |results| && results[n - lineNum - 1].NoEquals?
      && forall i :: 0 <= i < n - lineNum - 1 ==> !IsError(results[i])
    case EmptyName(n) =>
      && lineNum < n <= lineNum + |results| && results[n - lineNum - 1].NoName?
      && forall i :: 0 <= i < n - lineNum - 1 ==> !IsError(results[i])
  }

  lemma ReadsFirst(results: seq<LineResult>, lineNum: nat, env: map<string, string>, next: map<string, string>,
                   r: ParseResult)
    requires results != [] && !IsError(results[0])
    requires next == if results[0].Pair? then env[results[0].key := results[0].value] else env
    requires Reads(results[1..], lineNum + 1, next, r)
    ensures Reads(results, lineNum, env, r)
  {
    var rest := results[1..];
    assert forall i :: 0 < i < |results| ==> results[i] == rest[i - 1];
    if r.Parsed? {
      forall key, i: nat | LastFor(results, i, key) ensures key in r.env && r.env[key] == results[i].value {
        if i > 0 {
          assert LastFor(rest, i - 1, key);
        } else {
          assert forall j :: 0 <= j < |rest| && rest[j].Pair? ==> rest[j].key != key;
        }
      }
      forall key | forall i :: 0 <= i < |results| && results[i].Pair? ==> results[i].key != key
        ensures if key in env then key in r.env && r.env[key] == env[key] else key !in r.env
      {
        assert forall j :: 0 <= j < |rest| && rest[j].Pair? ==> rest[j].key != key;
        assert results[0].Pair? ==> results[0].key != key;
      }
    }
  }

  lemma {:induction false} CollectReads(results: seq<LineResult>, lineNum: nat, env: map<string, string>)
    ensures Reads(results, lineNum, env, Collect(results, lineNum, env))
    decreases |results|
  {
    if results != [] && !IsError(results[0]) {
      var next := if results[0].Pair? then env[results[0].key := results[0].value] else env;
      CollectReads(results[1..], lineNum + 1, next);
      ReadsFirst(results, lineNum, env, next, Collect(results, lineNum, env));
    }
  }

  /** A text is read line by line: it fails at its first line that is in error, whose number is given; otherwise
      every variable has the value of the last line that names it, and there is no other. */
  lemma ParseReads(content: string)
    ensures Reads(ParseAll(Split(content, '\n')), 0, map[], ParsedContent(content))
  {
    ParseByLines(content);
    CollectReads(ParseAll(Split(content, '\n')), 0, map[]);
  }

  // ----- printing

  /** A value is printed as it is if and only if it is not empty and holds no blank, tab, line feed, quote, hash
      sign, dollar sign, backquote or backslash. */
  lemma PrintedBareIff(val: string)
    ensures FormatValue(val) == val <==> val != "" && forall i :: 0 <= i < |val| ==> val[i] !in SPECIAL
  {
    NeedsQuotesIff(val);
    if val != "" && NeedsQuotes(val) {
      ChainIsEscaped(val);
      EscapedNoShorter(val);
      assert |FormatValue(val)| > |val|;
    }
  }

  lemma {:induction false} EscapedNoShorter(val: string)
    ensures |Escaped(val)| >= |val|
  {
    if val != "" {
      EscapedNoShorter(val[1..]);
    }
  }

  lemma NoFeed(s: string)
    requires '\n' !in s
    ensures Split(s, '\n') == [s]
  {
    assert Index(s, '\n') == None;
  }

  /** A hash sign before each line, trimmed. */
  function Hashed(lines: seq<string>): seq<string> {
    if lines == [] then [] else ["# " + TrimSpace(lines[0])] + Hashed(lines[1..])
  }

  lemma TrimFeed(line: string)
    requires '\n' !in line
    ensures '\n' !in TrimSpace(line)
  {
    var t := TrimSpace(line);
    var left, right := TrimSplits(line);
    assert forall i :: 0 <= i < |t| ==> t[i] == line[|left| + i];
  }

  lemma SplitFirst(first: string, more: string, tail: string, text: string)
    requires '\n' !in first && text == first + "\n" + more
    ensures Split(text + tail, '\n') == [first] + Split(more + tail, '\n')
  {
    SplitStep(first, more + tail, '\n');
    assert text + tail == first + ['\n'] + (more + tail);
  }

  lemma Prepended(first: string, a: seq<string>, b: seq<string>, all: seq<string>)
    requires all == [first] + a
    ensures all + b == [first] + (a + b)
  {
  }

  lemma {:induction false} HashedLines(lines: seq<string>, tail: string, text: string)
    requires forall i :: 0 <= i < |lines| ==> '\n' !in lines[i]
    requires text == Concat(CommentLines(lines))
    ensures Split(text + tail, '\n') == Hashed(lines) + Split(tail, '\n')
    decreases |lines|
  {
    if lines == [] {
      assert text + tail == tail;
    } else {
      var rest, first := lines[1..], "# " + TrimSpace(lines[0]);
      var more := Concat(CommentLines(rest));
      TrimFeed(lines[0]);
      HashedLines(rest, tail, more);
      HashedFirst(lines, first, rest);
      SplitFirst(first, more, tail, text);
      Prepended(first, Hashed(rest), Split(tail, '\n'), Hashed(lines));
    }
  }

  lemma HashedFirst(lines: seq<string>, first: string, rest: seq<string>)
    requires lines != [] && first == "# " + TrimSpace(lines[0]) && rest == lines[1..]
    ensures Concat(CommentLines(lines)) == first + "\n" + Concat(CommentLines(rest))
  {
    assert CommentLines(lines)[1..] == CommentLines(rest);
    ConcatHead(CommentLines(lines), CommentLine(lines[0]), CommentLines(rest));
  }

  /** The lines above a variable: those of its comment, none for a blank one. */
  function CommentOf(k: string, comments: map<string, string>): seq<string> {
    if k !in comments || TrimSpace(comments[k]) == "" then [] else Hashed(Split(comments[k], '\n'))
  }

  lemma OneLine(line: string)
    requires '\n' !in line
    ensures Split(line + "\n", '\n') == [line, ""]
  {
    SplitStep(line, "", '\n');
    assert line + ['\n'] + "" == line + "\n";
    assert Split("", '\n') == [""];
  }

  lemma BlockLines(k: string, comments: map<string, string>, tail: string)
    ensures Split(CommentBlock(k, comments) + tail, '\n') == CommentOf(k, comments) + Split(tail, '\n')
  {
    if k in comments && TrimSpace(comments[k]) != "" {
      var lines := Split(comments[k], '\n');
      assert forall i :: 0 <= i < |lines| ==> lines[i] in lines;
      HashedLines(lines, tail, CommentBlock(k, comments));
    } else {
      assert CommentBlock(k, comments) + tail == tail;
    }
  }

  lemma LineEnds(block: string, line: string)
    ensures block + line + "\n" == block + (line + "\n")
  {
  }

  lemma BlockAndLine(k: string, comments: map<string, string>, line: string, block: string, text: string)
    requires '\n' !in line && block == CommentBlock(k, comments) && text == block + line + "\n"
    ensures Split(text, '\n') == CommentOf(k, comments) + [line, ""]
  {
    OneLine(line);
    BlockLines(k, comments, line + "\n");
    LineEnds(block, line);
  }

  /** A printed variable is its comment and then one line with its name and its value. */
  lemma EntryShows(k: string, values: map<string, string>, comments: map<string, string>)
    requires k in values && '\n' !in k
    ensures Split(Entry(k, values, comments), '\n') ==
      CommentOf(k, comments) + [k + "=" + FormatValue(values[k]), ""]
  {
    UnquoteFormatted(values[k]);
    BlockAndLine(k, comments, EntryLine(k, values[k]), CommentBlock(k, comments), Entry(k, values, comments));
  }
}
