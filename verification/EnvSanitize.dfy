/** Masking secrets in an env-file body: SanitizeEnvContent of pkg/onboard/domain/sanitize.go. */
module EnvSanitize {
  import opened Strings
  import opened EnvFile
  import opened EnvRoundTrip

  /** unicode.ToUpper, as far as its result is an ASCII letter: besides a to z only U+0131 and U+017F
      map to one. Other runes are left alone, which no ASCII keyword can tell from their upper case. */
  function UpperRune(c: char): char {
    if 'a' <= c <= 'z' then c - 'a' + 'A'
    else if c == '\U{0131}' then 'I'
    else if c == '\U{017F}' then 'S'
    else c
  }

  function ToUpper(s: string): string {
    seq(|s|, i requires 0 <= i < |s| => UpperRune(s[i]))
  }

  const KEYWORDS: seq<string> := ["KEY", "SECRET", "TOKEN", "PASSWORD", "PRIVATE", "AUTH"]

  const REDACTED := "[REDACTED]"

  /** A name that contains one of the keywords, in any case. */
  predicate Sensitive(name: string) {
    exists i :: 0 <= i < |KEYWORDS| && Contains(ToUpper(name), KEYWORDS[i])
  }

  function SanitizedLine(line: string): string {
    var trimmed := TrimSpace(line);
    if "#" <= trimmed || trimmed == "" then line
    else
      match Index(line, '=')
      case None => line
      case Some(i) => if Sensitive(TrimSpace(line[..i])) then line[..i] + "=" + REDACTED else line
  }

  function SanitizedLines(lines: seq<string>): seq<string> {
    seq(|lines|, i requires 0 <= i < |lines| => SanitizedLine(lines[i]))
  }

  function Sanitized(content: string): string {
    Join(SanitizedLines(Split(content, '\n')), "\n")
  }

  method SanitizeLine(line: string) returns (r: string)
    ensures r == SanitizedLine(line)
  {
    var trimmed := TrimSpace(line);
    if "#" <= trimmed || trimmed == "" {
      return line;
    }
    var idx := Index(line, '=');
    if idx.Some? {
      var key := ToUpper(TrimSpace(line[..idx.value]));
      var isSensitive := false;
      for j := 0 to |KEYWORDS|
        invariant isSensitive <==> exists i :: 0 <= i < j && Contains(key, KEYWORDS[i])
      {
        if Contains(key, KEYWORDS[j]) {
          isSensitive := true;
          break;
        }
      }
      if isSensitive {
        return line[..idx.value] + "=" + REDACTED;
      }
    }
    return line;
  }

  /** The loop of SanitizeEnvContent. */
  method SanitizeLines(lines: seq<string>) returns (result: seq<string>)
    ensures result == SanitizedLines(lines)
  {
    result := [];
    for i := 0 to |lines|
      invariant |result| == i && forall j :: 0 <= j < i ==> result[j] == SanitizedLine(lines[j])
    {
      var line := SanitizeLine(lines[i]);
      result := result + [line];
    }
  }

  method SanitizeEnvContent(content: string) returns (r: string)
    ensures r == Sanitized(content)
  {
    var result := SanitizeLines(Split(content, '\n'));
    return Join(result, "\n");
  }

  // ----- which names are masked

  /** c is the capital letter, or a rune whose upper case it is. */
  predicate Spells(c: char, capital: char) {
    || c == capital
    || ('a' <= c <= 'z' && 'A' <= capital <= 'Z' && c - 'a' == capital - 'A')
    || (c == '\U{0131}' && capital == 'I') || (c == '\U{017F}' && capital == 'S')
  }

  predicate SpelledAt(name: string, i: nat, word: string) {
    i + |word| <= |name| && forall j :: 0 <= j < |word| ==> Spells(name[i + j], word[j])
  }

  /** The name holds one of the six words, in any case. */
  ghost predicate NamesSecret(name: string) {
    exists i: nat, word :: word in ["KEY", "SECRET", "TOKEN", "PASSWORD", "PRIVATE", "AUTH"] && SpelledAt(name, i, word)
  }

  lemma ContainsSpelled(name: string, word: string)
    requires forall j :: 0 <= j < |word| ==> 'A' <= word[j] <= 'Z'
    ensures Contains(ToUpper(name), word) <==> exists i: nat :: SpelledAt(name, i, word)
  {
    var upper := ToUpper(name);
    forall i: nat | i <= |name| ensures word <= upper[i..] <==> SpelledAt(name, i, word) {
      if i + |word| <= |name| {
        assert forall j :: 0 <= j < |word| ==> upper[i..][j] == UpperRune(name[i + j]);
        assert upper[i..][..|word|] == word <==> forall j :: 0 <= j < |word| ==> upper[i..][j] == word[j];
      }
    }
  }

  lemma SensitiveIff(name: string)
    ensures Sensitive(name) <==> NamesSecret(name)
  {
    assert KEYWORDS == ["KEY", "SECRET", "TOKEN", "PASSWORD", "PRIVATE", "AUTH"];
    forall k | 0 <= k < |KEYWORDS|
      ensures Contains(ToUpper(name), KEYWORDS[k]) <==> exists i: nat :: SpelledAt(name, i, KEYWORDS[k])
    {
      KeywordsPlain(k);
      ContainsSpelled(name, KEYWORDS[k]);
    }
    if i: nat, word :| word in KEYWORDS && SpelledAt(name, i, word) {
      var k :| 0 <= k < |KEYWORDS| && KEYWORDS[k] == word;
      assert Contains(ToUpper(name), KEYWORDS[k]);
    }
  }

  lemma StartsComment(before: string, value: string, line: string)
    requires '=' !in before && line == before + "=" + value
    ensures "#" <= TrimSpace(line) <==> TrimLeft(before) != "" && TrimLeft(before)[0] == '#'
    ensures TrimSpace(line) != ""
  {
    var start := TrimLeft(before);
    var left := TrimLeftSplits(before);
    TrimAround(before, value);
    PrefixBeforeEquals("#", start, TrimRight(value));
    if start != "" {
      assert "#" <= start <==> start[0] == "#"[0];
    }
  }

  lemma FirstEquals(before: string, value: string, line: string)
    requires '=' !in before && line == before + "=" + value
    ensures Index(line, '=') == Some(|before|) && line[..|before|] == before
  {
    IndexIs(line, '=', |before|);
  }

  /** A line that gives a variable a value is masked exactly when the trimmed text before the first equals sign names
      a secret; a comment, and every other line, is left as it is. */
  lemma MaskedIff(before: string, value: string, line: string)
    requires '=' !in before && line == before + "=" + value
    ensures
      var start := TrimLeft(before);
      SanitizedLine(line) ==
        if !(start != "" && start[0] == '#') && NamesSecret(TrimSpace(before)) then before + "=" + "[REDACTED]"
        else line
  {
    SensitiveIff(TrimSpace(before));
    FirstEquals(before, value, line);
    StartsComment(before, value, line);
  }

  /** A line without an equals sign is left as it is. */
  lemma OtherLinesKept(line: string)
    requires '=' !in line
    ensures SanitizedLine(line) == line
  {
    assert Index(line, '=') == None;
  }

  // ----- keywords and white space

  lemma ContainsAt(s: string, needle: string, i: nat)
    requires i + |needle| <= |s| && forall j :: 0 <= j < |needle| ==> s[i + j] == needle[j]
    ensures Contains(s, needle)
  {
    assert s[i..][..|needle|] == needle;
  }

  lemma NotAcross(s: string, needle: string, i: nat, p: nat)
    requires i <= |s| && p < |s| && needle <= s[i..] && s[p] !in needle
    ensures p < i || i + |needle| <= p
  {
    assert forall j :: 0 <= j < |needle| ==> s[i + j] == s[i..][j] == needle[j];
    assert p >= i ==> s[i + (p - i)] == s[p];
  }

  lemma FoundInPart(s: string, a: string, b: string, needle: string)
    requires |s| == |a| + 1 + |b| && s[..|a|] == a && s[|a| + 1..] == b && s[|a|] !in needle && Contains(s, needle)
    ensures Contains(a, needle) || Contains(b, needle)
  {
    var i :| 0 <= i <= |s| && needle <= s[i..];
    NotAcross(s, needle, i, |a|);
    assert forall j :: 0 <= j < |needle| ==> s[i + j] == s[i..][j] == needle[j];
    if i <= |a| && i + |needle| <= |a| {
      ContainsAt(a, needle, i);
    } else {
      ContainsAt(b, needle, i - |a| - 1);
    }
  }

  lemma FoundInWhole(s: string, part: string, from: nat, needle: string)
    requires from + |part| <= |s| && s[from..from + |part|] == part && Contains(part, needle)
    ensures Contains(s, needle)
  {
    var i :| 0 <= i <= |part| && needle <= part[i..];
    assert forall j :: 0 <= j < |needle| ==> s[from + i + j] == part[i..][j];
    ContainsAt(s, needle, from + i);
  }

  /** A needle without c does not reach across a c. */
  lemma ContainsAcross(a: string, c: char, b: string, needle: string)
    requires c !in needle && needle != ""
    ensures Contains(a + [c] + b, needle) <==> Contains(a, needle) || Contains(b, needle)
  {
    var s := a + [c] + b;
    if Contains(s, needle) {
      FoundInPart(s, a, b, needle);
    } else if Contains(a, needle) {
      FoundInWhole(s, a, 0, needle);
    } else if Contains(b, needle) {
      FoundInWhole(s, b, |a| + 1, needle);
    }
  }


  /** A keyword has no white space, so white space before a name does not matter. */
  lemma {:induction false} ContainsPastSpace(space: string, name: string, needle: string)
    requires AllSpace(space) && needle != "" && forall c :: c in needle ==> 'A' <= c <= 'Z'
    ensures Contains(ToUpper(space + name), needle) <==> Contains(ToUpper(name), needle)
  {
    if space == "" {
      assert space + name == name;
    } else {
      var c := space[0];
      ContainsPastSpace(space[1..], name, needle);
      assert UpperRune(c) == c;
      assert ToUpper(space + name) == "" + [c] + ToUpper(space[1..] + name);
      ContainsAcross("", c, ToUpper(space[1..] + name), needle);
      assert !Contains("", needle);
    }
  }

  lemma KeywordsPlain(i: nat)
    requires i < |KEYWORDS|
    ensures KEYWORDS[i] != "" && forall c :: c in KEYWORDS[i] ==> 'A' <= c <= 'Z'
    ensures !Contains("EXPORT", KEYWORDS[i])
  {
    var k, e := KEYWORDS[i], "EXPORT";
    forall j | 0 <= j <= 6 ensures !(k <= e[j..]) {
      assert j < 6 ==> e[j..][0] == e[j];
      assert j < 5 ==> e[j..][1] == e[j + 1];
    }
  }

  /** An export prefix makes no name sensitive. */
  lemma SensitivePastExport(space: string, name: string)
    requires AllSpace(space)
    ensures Sensitive("export " + space + name) <==> Sensitive(name)
  {
    forall i | 0 <= i < |KEYWORDS|
      ensures Contains(ToUpper("export " + space + name), KEYWORDS[i]) <==> Contains(ToUpper(name), KEYWORDS[i])
    {
      var k := KEYWORDS[i];
      KeywordsPlain(i);
      ContainsPastSpace(space, name, k);
      var rest := space + name;
      assert "export " + space + name == "export " + rest;
      assert ToUpper("export " + rest) == "EXPORT" + [' '] + ToUpper(rest);
      ContainsAcross("EXPORT", ' ', ToUpper(rest), k);
    }
  }

  /** A word, space and a trimmed name are trimmed together. */
  lemma WordAndName(word: string, space: string, name: string, right: string)
    requires word != "" && !IsSpace(word[0]) && name != "" && IsTrimmed(name) && AllSpace(right)
    ensures TrimSpace(word + space + name + right) == word + space + name
  {
    var core := word + space + name;
    assert core[0] == word[0] && core[|core| - 1] == name[|name| - 1];
    TrimPadded("", core, right);
    assert "" + core + right == core + right;
  }

  lemma Flattened(a: string, b: string, c: string, d: string)
    ensures a + (b + c + d) == a + b + c + d
  {
  }

  lemma ExportedName(before: string) returns (space: string)
    requires "export " <= TrimLeft(before) && NameOf(before) != ""
    ensures AllSpace(space) && TrimSpace(before) == "export " + space + NameOf(before)
  {
    var n := TrimLeft(before);
    var left, right := TrimSplits(n[7..]);
    var name := NameOf(before);
    Flattened("export ", left, name, right);
    assert n == "export " + n[7..];
    WordAndName("export ", left, name, right);
    TrimOfLeft(before);
    space := left;
  }

  /** The sanitizer and the parser judge the same name. */
  lemma SameName(before: string)
    requires NameOf(before) != ""
    ensures Sensitive(TrimSpace(before)) <==> Sensitive(NameOf(before))
  {
    if "export " <= TrimLeft(before) {
      var space := ExportedName(before);
      SensitivePastExport(space, NameOf(before));
    } else {
      TrimOfLeft(before);
    }
  }

  // ----- sanitizing commutes with parsing

  function RedactedResult(r: LineResult): LineResult {
    match r
    case Pair(key, value) => Pair(key, if Sensitive(key) then REDACTED else value)
    case _ => r
  }

  function RedactedEnv(env: map<string, string>): map<string, string> {
    map k | k in env :: if Sensitive(k) then REDACTED else env[k]
  }

  /** Parsing with every sensitive value masked. */
  function Redacted(r: ParseResult): ParseResult {
    match r
    case Parsed(env) => Parsed(RedactedEnv(env))
    case _ => r
  }

  lemma NothingSensitiveInBlank()
    ensures !Sensitive("") && !Sensitive("export")
  {
    forall i | 0 <= i < |KEYWORDS|
      ensures !Contains(ToUpper(""), KEYWORDS[i]) && !Contains(ToUpper("export"), KEYWORDS[i])
    {
      KeywordsPlain(i);
      assert ToUpper("export") == "EXPORT";
    }
  }

  /** A line whose name is blank to the parser is not sensitive. */
  lemma BlankNameNotSensitive(before: string)
    requires NameOf(before) == ""
    ensures !Sensitive(TrimSpace(before))
  {
    NothingSensitiveInBlank();
    var n := TrimLeft(before);
    TrimOfLeft(before);
    if "export " <= n {
      var left, right := TrimSplits(n[7..]);
      assert n == "" + "export" + (" " + left + right);
      TrimPadded("", "export", " " + left + right);
    }
  }

  /** One line: masking its text masks the value it parses to, and nothing else. */
  lemma LineCommutes(line: string)
    ensures ParseLine(SanitizedLine(line)) == RedactedResult(ParseLine(line))
  {
    match Index(line, '=')
    case None =>
      NoPairWithoutEquals(line);
    case Some(i) =>
      var before, after := line[..i], line[i + 1..];
      assert line == before + "=" + after;
      LineShape(before, after);
      LineShape(before, REDACTED);
      TrimAround(before, after);
      var line' := TrimLeft(before) + "=" + TrimRight(after);
      PrefixBeforeEquals("#", TrimLeft(before), TrimRight(after));
      RedactedReads();
      if !("#" <= TrimLeft(before)) {
        if NameOf(before) == "" {
          BlankNameNotSensitive(before);
        } else {
          SameName(before);
        }
      }
  }

  lemma RedactedReads()
    ensures Unquoted(TrimSpace(REDACTED)) == REDACTED
  {
    TrimTrimmed(REDACTED);
    assert forall i :: 0 <= i < |REDACTED| ==> REDACTED[i] != '#';
  }

  lemma NoPairWithoutEquals(line: string)
    requires '=' !in line
    ensures !ParseLine(line).Pair?
  {
    var left, right := TrimSplits(line);
    var t := TrimSpace(line);
    assert forall c :: c in t ==> c in line;
    if "export " <= t {
      var l, r := TrimSplits(t[7..]);
      assert forall c :: c in t[7..] ==> c in t;
      assert forall c :: c in TrimSpace(t[7..]) ==> c in t[7..];
    }
  }

  lemma {:induction false} CollectCommutes(results: seq<LineResult>, redacted: seq<LineResult>, lineNum: nat,
                                           env: map<string, string>)
    requires |results| == |redacted| && forall i :: 0 <= i < |results| ==> redacted[i] == RedactedResult(results[i])
    ensures Collect(redacted, lineNum, RedactedEnv(env)) == Redacted(Collect(results, lineNum, env))
  {
    if results != [] {
      match results[0]
      case Pair(key, value) =>
        var env' := env[key := value];
        assert RedactedEnv(env') == RedactedEnv(env)[key := redacted[0].value];
        CollectCommutes(results[1..], redacted[1..], lineNum + 1, env');
      case _ =>
        CollectCommutes(results[1..], redacted[1..], lineNum + 1, env);
    }
  }

  lemma SanitizedSplit(content: string)
    ensures Split(Sanitized(content), '\n') == SanitizedLines(Split(content, '\n'))
  {
    var lines := Split(content, '\n');
    forall l | l in lines ensures '\n' !in SanitizedLine(l) {
      match Index(l, '=')
      case None =>
      case Some(i) => assert forall c :: c in l[..i] ==> c in l;
    }
    SplitJoin(SanitizedLines(lines), '\n');
  }

  /** Sanitizing a body and then parsing it is parsing it and then masking the sensitive values: the same
      keys, the same other values, and the same error at the same line. */
  lemma SanitizeCommutes(content: string)
    ensures ParsedContent(Sanitized(content)) == Redacted(ParsedContent(content))
  {
    var lines := Split(content, '\n');
    ParseByLines(content);
    ParseByLines(Sanitized(content));
    SanitizedSplit(content);
    var results, redacted := ParseAll(lines), ParseAll(SanitizedLines(lines));
    forall i | 0 <= i < |lines| ensures redacted[i] == RedactedResult(results[i]) {
      LineCommutes(lines[i]);
    }
    assert RedactedEnv(map[]) == map[];
    CollectCommutes(results, redacted, 0, map[]);
  }

  lemma LineTwice(line: string)
    ensures SanitizedLine(SanitizedLine(line)) == SanitizedLine(line)
  {
    var line' := SanitizedLine(line);
    if line' != line {
      var i := Index(line, '=').value;
      var before := line[..i];
      assert line' == before + "=" + REDACTED;
      IndexAfterMask(before);
      NothingSensitiveInBlank();
    }
  }

  lemma IndexAfterMask(before: string)
    requires '=' !in before
    ensures Index(before + "=" + REDACTED, '=') == Some(|before|)
    ensures (before + "=" + REDACTED)[..|before|] == before
  {
    IndexIs(before + "=" + REDACTED, '=', |before|);
  }

  /** Sanitizing twice is sanitizing once. */
  lemma SanitizeTwice(content: string)
    ensures Sanitized(Sanitized(content)) == Sanitized(content)
  {
    SanitizedSplit(content);
    var lines := Split(content, '\n');
    forall i | 0 <= i < |lines| ensures SanitizedLine(SanitizedLine(lines[i])) == SanitizedLine(lines[i]) {
      LineTwice(lines[i]);
    }
    assert SanitizedLines(SanitizedLines(lines)) == SanitizedLines(lines);
  }
}
