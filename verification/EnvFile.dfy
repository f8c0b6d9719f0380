/** The env-file printer and parser: pkg/env/domain/generate.go and pkg/env/domain/parse.go. */
module EnvFile {
  import opened Strings

  // ----- printing

  /** strings.ReplaceAll for a one-rune needle. */
  function ReplaceAll(s: string, c: char, with: string): string {
    if s == "" then "" else (if s[0] == c then with else [s[0]]) + ReplaceAll(s[1..], c, with)
  }

  predicate ForcesQuotes(c: char) {
    || c == ' ' || c == '\t' || c == '\n' || c == '"' || c == '\''
    || c == '#' || c == '$' || c == '`' || c == '\\'
  }

  predicate NeedsQuotes(val: string) {
    || (exists i :: 0 <= i < |val| && ForcesQuotes(val[i]))
    || " " <= val
    || (val != "" && val[|val| - 1] == ' ')
  }

  /** The chain of replacements that quoting applies. */
  function EscapeChain(val: string): string {
    var escaped := ReplaceAll(val, '\\', "\\\\");
    var escaped := ReplaceAll(escaped, '"', "\\\"");
    var escaped := ReplaceAll(escaped, '\n', "\\n");
    var escaped := ReplaceAll(escaped, '\r', "\\r");
    var escaped := ReplaceAll(escaped, '\t', "\\t");
    ReplaceAll(escaped, '$', "\\$")
  }

  function FormatValue(val: string): string {
    if val == "" then "\"\""
    else if !NeedsQuotes(val) then val
    else "\"" + EscapeChain(val) + "\""
  }

  function CommentLine(line: string): string {
    "# " + TrimSpace(line) + "\n"
  }

  function CommentLines(lines: seq<string>): seq<string> {
    seq(|lines|, j requires 0 <= j < |lines| => CommentLine(lines[j]))
  }

  /** The comment lines above a variable; none for a blank or absent comment. */
  function CommentBlock(k: string, comments: map<string, string>): string {
    if k in comments && TrimSpace(comments[k]) != "" then Concat(CommentLines(Split(comments[k], '\n'))) else ""
  }

  function EntryLine(k: string, val: string): string {
    k + "=" + FormatValue(val)
  }

  function Entry(k: string, values: map<string, string>, comments: map<string, string>): string
    requires k in values
  {
    CommentBlock(k, comments) + EntryLine(k, values[k]) + "\n"
  }

  function Entries(keys: seq<string>, values: map<string, string>, comments: map<string, string>): seq<string>
    requires forall i :: 0 <= i < |keys| ==> keys[i] in values
  {
    seq(|keys|, i requires 0 <= i < |keys| => Entry(keys[i], values, comments))
  }

  method WriteComment(lines: seq<string>) returns (buf: string)
    ensures buf == Concat(CommentLines(lines))
  {
    ghost var written := CommentLines(lines);
    buf := "";
    for j := 0 to |lines|
      invariant buf == Concat(written[..j])
    {
      var line := CommentLine(lines[j]);
      ConcatTake(written, j);
      buf := buf + line;
    }
    assert written[..|lines|] == written;
  }

  method WriteEntry(k: string, values: map<string, string>, comments: map<string, string>) returns (entry: string)
    requires k in values
    ensures entry == Entry(k, values, comments)
  {
    var block := "";
    if k in comments && TrimSpace(comments[k]) != "" {
      block := WriteComment(Split(comments[k], '\n'));
    }
    entry := block + EntryLine(k, values[k]) + "\n";
  }

  /** buf is the entries of all names, in sorted order. */
  ghost predicate IsRendering(buf: string, values: map<string, string>, comments: map<string, string>) {
    exists keys ::
      && Sorted(keys) && (forall k :: k in keys <==> k in values)
      && buf == Concat(Entries(keys, values, comments))
  }

  /** There is one rendering only: the order the maps are iterated in does not show. */
  lemma RenderingUnique(a: string, b: string, values: map<string, string>, comments: map<string, string>)
    requires IsRendering(a, values, comments) && IsRendering(b, values, comments)
    ensures a == b
  {
    var ka :| Sorted(ka) && (forall k :: k in ka <==> k in values) && a == Concat(Entries(ka, values, comments));
    var kb :| Sorted(kb) && (forall k :: k in kb <==> k in values) && b == Concat(Entries(kb, values, comments));
    SortedUnique(ka, kb);
  }

  /** RenderEnv; an absent comment map is the empty one. */
  method RenderEnv(values: map<string, string>, comments: map<string, string>) returns (buf: string)
    ensures IsRendering(buf, values, comments)
  {
    var keys := SortKeys(values.Keys);
    ghost var written := Entries(keys, values, comments);
    buf := "";
    for i := 0 to |keys|
      invariant buf == Concat(written[..i])
    {
      var entry := WriteEntry(keys[i], values, comments);
      ConcatTake(written, i);
      buf := buf + entry;
    }
    assert written[..|keys|] == written;
  }

  // ----- parsing

  datatype LineResult = Skip | Pair(key: string, value: string) | NoEquals | NoName

  datatype ParseResult = Parsed(env: map<string, string>) | MissingEquals(line: nat) | EmptyName(line: nat)

  function Unescaped(inner: string): string {
    if inner == "" then ""
    else if inner[0] == '\\' && |inner| > 1 then [UnescapedRune(inner[1])] + Unescaped(inner[2..])
    else [inner[0]] + Unescaped(inner[1..])
  }

  function UnescapedRune(next: char): char {
    match next
    case 'n' => '\n'
    case 'r' => '\r'
    case 't' => '\t'
    case _ => next
  }

  /** The index of the first " #". */
  function CommentIndex(raw: string): (r: Option<nat>)
    ensures r.Some? ==> r.value + 1 < |raw| && raw[r.value] == ' ' && raw[r.value + 1] == '#'
  {
    if raw == "" then None
    else if " #" <= raw then Some(0)
    else
      match CommentIndex(raw[1..])
      case None => None
      case Some(i) => Some(i + 1)
  }

  predicate Enclosed(raw: string, q: char) {
    |raw| >= 2 && raw[0] == q && raw[|raw| - 1] == q
  }

  /** What a raw value stands for. */
  function Unquoted(raw: string): string {
    if |raw| == 0 then ""
    else if Enclosed(raw, '"') then Unescaped(raw[1..|raw| - 1])
    else if Enclosed(raw, '\'') then raw[1..|raw| - 1]
    else
      match CommentIndex(raw)
      case Some(i) => TrimSpace(TrimSpace(raw[..i]))
      case None => if "#" <= raw then "" else TrimSpace(raw)
  }

  lemma UnescapedAt(inner: string, i: nat)
    requires i < |inner|
    ensures Unescaped(inner[i..]) ==
      if inner[i] == '\\' && i + 1 < |inner| then [UnescapedRune(inner[i + 1])] + Unescaped(inner[i + 2..])
      else [inner[i]] + Unescaped(inner[i + 1..])
  {
    assert inner[i..][1..] == inner[i + 1..];
    if i + 1 < |inner| {
      assert inner[i..][2..] == inner[i + 2..];
    }
  }

  lemma Regroup(a: string, c: char, rest: string)
    ensures (a + [c]) + rest == a + ([c] + rest)
  {
  }

  /** The scan over quoted text: writes one rune at a time. */
  method Unescape(inner: string) returns (r: string)
    ensures r == Unescaped(inner)
  {
    r := "";
    var i := 0;
    while i < |inner|
      invariant 0 <= i <= |inner|
      invariant r + Unescaped(inner[i..]) == Unescaped(inner)
    {
      UnescapedAt(inner, i);
      var c := inner[i];
      if c == '\\' && i + 1 < |inner| {
        c := UnescapedRune(inner[i + 1]);
        i := i + 1;
      }
      Regroup(r, c, Unescaped(inner[i + 1..]));
      r := r + [c];
      i := i + 1;
    }
  }

  method UnquoteEnvValue(raw: string) returns (r: string)
    ensures r == Unquoted(raw)
  {
    if |raw| == 0 {
      return "";
    }
    if Enclosed(raw, '"') {
      r := Unescape(raw[1..|raw| - 1]);
      return;
    }
    if Enclosed(raw, '\'') {
      return raw[1..|raw| - 1];
    }
    var cut := raw;
    var commentIdx := CommentIndex(raw);
    if commentIdx.Some? {
      cut := TrimSpace(raw[..commentIdx.value]);
    } else if "#" <= raw {
      return "";
    }
    return TrimSpace(cut);
  }

  function ParseLine(text: string): LineResult {
    var line := TrimSpace(text);
    if line == "" || "#" <= line then Skip
    else ParseAssignment(if "export " <= line then TrimSpace(line[7..]) else line)
  }

  function ParseAssignment(line: string): LineResult {
    match Index(line, '=')
    case None => NoEquals
    case Some(i) =>
      var key := TrimSpace(line[..i]);
      if key == "" then NoName else Pair(key, Unquoted(TrimSpace(line[i + 1..])))
  }

  function DropCR(line: string): string {
    if line != "" && line[|line| - 1] == '\r' then line[..|line| - 1] else line
  }

  /** bufio.ScanLines: an empty last line is no line, and one trailing carriage return is dropped. */
  function ScanLines(content: string): seq<string> {
    var parts := Split(content, '\n');
    var full := if parts[|parts| - 1] == "" then parts[..|parts| - 1] else parts;
    seq(|full|, i requires 0 <= i < |full| => DropCR(full[i]))
  }

  function ParseAll(lines: seq<string>): seq<LineResult> {
    seq(|lines|, i requires 0 <= i < |lines| => ParseLine(lines[i]))
  }

  /** Adds up line results after lineNum earlier lines; a repeated key keeps its last value, and the first
      line that is in error ends the parse. */
  function Collect(results: seq<LineResult>, lineNum: nat, env: map<string, string>): ParseResult {
    if results == [] then Parsed(env)
    else
      match results[0]
      case Skip => Collect(results[1..], lineNum + 1, env)
      case NoEquals => MissingEquals(lineNum + 1)
      case NoName => EmptyName(lineNum + 1)
      case Pair(key, value) => Collect(results[1..], lineNum + 1, env[key := value])
  }

  function ParsedContent(content: string): ParseResult {
    Collect(ParseAll(ScanLines(content)), 0, map[])
  }

  /** One turn of the parsing loop. */
  method ScanLine(text: string) returns (r: LineResult)
    ensures r == ParseLine(text)
  {
    var line := TrimSpace(text);
    if line == "" || "#" <= line {
      return Skip;
    }
    if "export " <= line {
      line := TrimSpace(line[7..]);
    }
    var idx := Index(line, '=');
    if idx == None {
      return NoEquals;
    }
    var key := TrimSpace(line[..idx.value]);
    if key == "" {
      return NoName;
    }
    var value := UnquoteEnvValue(TrimSpace(line[idx.value + 1..]));
    return Pair(key, value);
  }

  method ParseEnvContent(content: string) returns (r: ParseResult)
    ensures r == ParsedContent(content)
  {
    var env: map<string, string> := map[];
    var lines := ScanLines(content);
    ghost var results := ParseAll(lines);
    for lineNum := 0 to |lines|
      invariant Collect(results, 0, map[]) == Collect(results[lineNum..], lineNum, env)
    {
      assert results[lineNum..][1..] == results[lineNum + 1..];
      var result := ScanLine(lines[lineNum]);
      match result {
        case Skip =>
        case NoEquals => return MissingEquals(lineNum + 1);
        case NoName => return EmptyName(lineNum + 1);
        case Pair(key, value) => env := env[key := value];
      }
    }
    return Parsed(env);
  }
}
