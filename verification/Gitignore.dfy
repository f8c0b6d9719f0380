/** The ignore file of a repository with assets: ensureGitignore of pkg/assets/application/service.go. */
module Gitignore {
  import opened Strings

  /** The line a new file starts with, whatever it says. */
  type Comment = s: string | s != "" && s[0] == '#' && IsTrimmed(s) && '\n' !in s witness "#"

  /** Which calls fail on the way; a failed write may leave anything behind. */
  datatype Faults = Faults(read: bool, stat: bool, write: bool, left: Option<string>)

  /** What is left of the file, and whether no error is returned. */
  datatype Ensured = Ensured(ok: bool, text: Option<string>)

  predicate IsEntry(line: string) {
    line != "" && line[0] != '#'
  }

  predicate InLines(lines: seq<string>, path: string) {
    IsEntry(path) && exists i :: 0 <= i < |lines| && TrimSpace(lines[i]) == path
  }

  /** The text has a line for the path: trimmed, not blank, and no comment. */
  predicate Lists(text: string, path: string) {
    InLines(Split(text, '\n'), path)
  }

  function WithLine(text: string, path: string): string {
    (if text != "" && text[|text| - 1] != '\n' then text + "\n" else text) + path + "\n"
  }

  function Written(text: string, f: Faults): Ensured {
    if f.write then Ensured(false, f.left) else Ensured(true, Some(text))
  }

  function EnsuredIn(header: Comment, text: Option<string>, path: string, f: Faults): Ensured {
    var unread := text.None? || f.read;
    if !unread && Lists(text.value, path) then Ensured(true, text)
    else if unread && (text.None? || f.stat) then Written(header + "\n" + path + "\n", f)
    else if unread then Ensured(false, text)
    else Written(WithLine(text.value, path), f)
  }

  // ----- which paths are listed afterwards

  /** A path that a line can stand for. */
  predicate Listable(path: string) {
    IsEntry(path) && IsTrimmed(path) && '\n' !in path
  }

  lemma InLinesConcat(a: seq<string>, b: seq<string>, path: string)
    ensures InLines(a + b, path) <==> InLines(a, path) || InLines(b, path)
  {
    var all := a + b;
    assert forall i :: 0 <= i < |a| ==> all[i] == a[i];
    assert forall j :: 0 <= j < |b| ==> all[|a| + j] == b[j];
  }

  lemma ListsConcat(a: string, b: string, path: string)
    ensures Lists(a + "\n" + b, path) <==> Lists(a, path) || Lists(b, path)
  {
    SplitConcat(a, b, '\n');
    InLinesConcat(Split(a, '\n'), Split(b, '\n'), path);
  }

  lemma NothingListed(path: string)
    ensures !Lists("", path)
  {
    TrimTrimmed("");
    assert Split("", '\n') == [""];
  }

  lemma CommentLists(header: Comment, path: string)
    ensures !Lists(header, path)
  {
    TrimTrimmed(header);
    assert Split(header, '\n') == [header];
  }

  lemma EndedLists(a: string, path: string)
    ensures Lists(a + "\n", path) <==> Lists(a, path)
  {
    NothingListed(path);
    ListsConcat(a, "", path);
    assert a + "\n" + "" == a + "\n";
  }

  lemma BothLists(a: string, b: string, path: string)
    ensures Lists(a + "\n" + b + "\n", path) <==> Lists(a, path) || Lists(b, path)
  {
    ListsConcat(a, b + "\n", path);
    EndedLists(b, path);
    assert a + "\n" + (b + "\n") == a + "\n" + b + "\n";
  }

  /** A line ends with a newline, or has one put after it, so appending a path adds just its lines. */
  lemma WithLineLists(text: string, path: string, q: string)
    ensures Lists(WithLine(text, path), q) <==> Lists(text, q) || Lists(path, q)
  {
    NothingListed(q);
    if text == "" {
      EndedLists(path, q);
      assert "" + path + "\n" == path + "\n";
    } else if text[|text| - 1] == '\n' {
      var init := text[..|text| - 1];
      assert text == init + "\n";
      EndedLists(init, q);
      BothLists(init, path, q);
    } else {
      BothLists(text, path, q);
    }
  }

  /** It succeeds for a file that can be read and lists the path, and otherwise when the new text can be written: for
      a file that can be read, or is not there, or can neither be read nor looked up. When it fails the file is left
      alone, unless the write did something to it. */
  lemma EnsuredOkIff(header: Comment, text: Option<string>, path: string, f: Faults)
    ensures
      var r := EnsuredIn(header, text, path, f);
      && (r.ok <==>
          || (text.Some? && !f.read && Lists(text.value, path))
          || (!f.write && (text.Some? && f.read ==> f.stat)))
      && (!r.ok ==> r.text == if text.Some? && f.read && !f.stat then text else f.left)
  {
  }

  /** After a success the file lists what it listed before and the lines of the path, and is only appended to;
      but a file that can neither be read nor looked up is replaced by one that lists the path alone. */
  lemma EnsuredLists(header: Comment, text: Option<string>, path: string, f: Faults, q: string)
    requires EnsuredIn(header, text, path, f).ok
    ensures
      var after := EnsuredIn(header, text, path, f).text;
      && after.Some?
      && if text.Some? && f.read then f.stat && (Lists(after.value, q) <==> Lists(path, q))
         else
           && (Lists(after.value, q) <==> (text.Some? && Lists(text.value, q)) || Lists(path, q))
           && (text.Some? ==> text.value <= after.value)
  {
    CommentLists(header, q);
    BothLists(header, path, q);
    if text.Some? {
      WithLineLists(text.value, path, q);
      if Lists(text.value, path) && Lists(path, q) {
        OneLine(text.value, path, q);
      }
    }
  }

  /** A listed path is a single line, and stands for itself. */
  lemma OneLine(text: string, path: string, q: string)
    requires Lists(text, path)
    ensures Listable(path)
    ensures Lists(path, q) <==> q == path
  {
    var lines := Split(text, '\n');
    var i :| 0 <= i < |lines| && TrimSpace(lines[i]) == path;
    var left, right := TrimSplits(lines[i]);
    assert lines[i] in lines && '\n' !in lines[i];
    assert forall c :: c in path ==> c in left + path + right;
    TrimTrimmed(path);
    assert Split(path, '\n') == [path];
  }

  lemma ListableIsListed(path: string)
    requires Listable(path)
    ensures Lists(path, path)
  {
    TrimTrimmed(path);
    assert Split(path, '\n') == [path];
    assert [path][0] == path;
  }

  /** After a success the path itself is listed if and only if it is trimmed, holds no line feed, and does not
      start like a comment. */
  lemma IgnoredIff(header: Comment, text: Option<string>, path: string, f: Faults)
    requires EnsuredIn(header, text, path, f).ok
    ensures Lists(EnsuredIn(header, text, path, f).text.value, path) <==> Listable(path)
  {
    EnsuredLists(header, text, path, f, path);
    if Listable(path) {
      ListableIsListed(path);
    } else if Lists(EnsuredIn(header, text, path, f).text.value, path) {
      OneLine(EnsuredIn(header, text, path, f).text.value, path, path);
    }
  }

  /** A file whose name starts like a comment is not: its line is appended, and read as a comment. */
  lemma HashNameNotIgnored(header: Comment, text: Option<string>, f: Faults)
    requires EnsuredIn(header, text, "#1.png", f).ok
    ensures !Lists(EnsuredIn(header, text, "#1.png", f).text.value, "#1.png")
  {
    IgnoredIff(header, text, "#1.png", f);
  }

  /** Ensuring a path a second time leaves the file alone for exactly the same paths; any other is appended
      every time. */
  lemma EnsureTwiceIff(header: Comment, text: Option<string>, path: string, f: Faults, again: Faults)
    requires EnsuredIn(header, text, path, f).ok && !again.read && !again.write
    ensures
      var once := EnsuredIn(header, text, path, f).text;
      EnsuredIn(header, once, path, again) == Ensured(true, once) <==> Listable(path)
  {
    IgnoredIff(header, text, path, f);
    var once := EnsuredIn(header, text, path, f).text;
    EnsuredLists(header, text, path, f, path);
    assert |WithLine(once.value, path)| > |once.value|;
  }

  // ----- the file

  class IgnoreFile {
    const header: Comment
    var text: Option<string>

    constructor (header: Comment, text: Option<string>)
      ensures this.header == header && this.text == text
    {
      this.header, this.text := header, text;
    }

    method Write(content: string, f: Faults) returns (ok: bool)
      modifies this
      ensures Ensured(ok, text) == Written(content, f)
    {
      text := if f.write then f.left else Some(content);
      return !f.write;
    }

    static lemma NextLine(lines: seq<string>, i: nat, q: string)
      requires i < |lines|
      ensures InLines(lines[..i + 1], q) <==> InLines(lines[..i], q) || (q == TrimSpace(lines[i]) && IsEntry(q))
    {
      assert lines[..i + 1] == lines[..i] + [lines[i]];
      InLinesConcat(lines[..i], [lines[i]], q);
      assert [lines[i]][0] == lines[i];
    }

    /** The trimmed lines that are neither blank nor comments. */
    static method Existing(data: string) returns (existing: set<string>)
      ensures forall q :: q in existing <==> Lists(data, q)
    {
      existing := {};
      var lines := Split(data, '\n');
      for i := 0 to |lines|
        invariant forall q :: q in existing <==> InLines(lines[..i], q)
      {
        var line := TrimSpace(lines[i]);
        forall q ensures InLines(lines[..i + 1], q) <==> InLines(lines[..i], q) || (q == line && IsEntry(q)) {
          NextLine(lines, i, q);
        }
        if line != "" && line[0] != '#' {
          existing := existing + {line};
        }
      }
      assert lines[..|lines|] == lines;
    }

    /** ensureGitignore. */
    method Ensure(path: string, f: Faults) returns (ok: bool)
      modifies this
      ensures Ensured(ok, text) == EnsuredIn(header, old(text), path, f)
    {
      var unread := text.None? || f.read;
      var data := if unread then "" else text.value;
      var existing := Existing(data);
      NothingListed(path);
      if path in existing {
        return true;
      }
      if unread && (text.None? || f.stat) {
        ok := Write(header + "\n" + path + "\n", f);
        return;
      }
      if unread {
        return false;
      }
      var content := data;
      if content != "" && content[|content| - 1] != '\n' {
        content := content + "\n";
      }
      content := content + path + "\n";
      ok := Write(content, f);
    }
  }
}
