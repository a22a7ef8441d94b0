/** The frontmatter printer and parser for markdown files, as operations on the text of a file. */
module Frontmatter {
  import opened Lists
  import opened Text
  import opened Options

  /** A value is a string, or something else that is printed through `str()`. */
  datatype Val = Str(s: string) | Other(printed: string)

  /** A dictionary in insertion order. */
  type Entries = seq<(string, Val)>

  const FENCE := "---\n"

  // ---- Printing -------------------------------------------------------------------

  function Line(entry: (string, Val)): string {
    match entry.1
    case Str(s) => entry.0 + ": \"" + s + "\""
    case Other(printed) => entry.0 + ": " + printed
  }

  function Lines(entries: Entries): seq<string> {
    seq(|entries|, i requires 0 <= i < |entries| => Line(entries[i]))
  }

  /** The text that `write_file_with_frontmatter` puts into the file. */
  function Written(entries: Entries, content: string): string {
    if entries == [] then content
    else Join(["---"] + Lines(entries) + ["---"], "\n")
         + if content != "" && content[0] != '\n' then "\n" + content else content
  }

  method WriteFile(entries: Entries, content: string) returns (file: string)
    ensures file == Written(entries, content)
  {
    if entries == [] {
      return content;
    }
    var lines := ["---"];
    for i := 0 to |entries|
      invariant lines == ["---"] + Lines(entries[..i])
    {
      var (key, value) := entries[i];
      if value.Str? {
        lines := lines + [key + ": \"" + value.s + "\""];
      } else {
        lines := lines + [key + ": " + value.printed];
      }
      assert Lines(entries[..i + 1]) == Lines(entries[..i]) + [Line(entries[i])];
    }
    assert entries[..|entries|] == entries;
    lines := lines + ["---"];
    var text := content;
    if text != "" && text[0] != '\n' {
      text := "\n" + text;
    }
    file := Join(lines, "\n") + text;
  }

  // ---- Parsing --------------------------------------------------------------------

  /** Universal newlines: `read_text` turns `\r\n` and `\r` into `\n`. */
  function Normalized(s: string): string {
    if s == "" then ""
    else if s[0] != '\r' then [s[0]] + Normalized(s[1..])
    else if |s| > 1 && s[1] == '\n' then "\n" + Normalized(s[2..])
    else "\n" + Normalized(s[1..])
  }

  /** Where the first fence starts. */
  function FindFence(s: string): Option<nat> {
    if FENCE <= s then Some(0)
    else if s == "" then None
    else
      match FindFence(s[1..])
      case None => None
      case Some(i) => Some(i + 1)
  }

  function IsDouble(c: char): bool { c == '"' }

  function IsSingle(c: char): bool { c == '\'' }

  /** `.strip('"').strip("'")`. */
  function Unquoted(s: string): string {
    Strip(Strip(s, IsDouble), IsSingle)
  }

  /** The key and the value of a line that has a colon. */
  function Parsed(line: string): (string, Val) {
    var (key, value) := Partition(line, ':');
    (Strip(key, IsSpace), Str(Unquoted(Strip(value, IsSpace))))
  }

  function ParsedLines(lines: seq<string>): map<string, Val> {
    if lines == [] then map[]
    else
      var before := ParsedLines(Init(lines));
      if ':' in Last(lines) then before[Parsed(Last(lines)).0 := Parsed(Last(lines)).1] else before
  }

  function ParsedText(text: string): map<string, Val> {
    ParsedLines(Split(Strip(text, IsSpace), '\n'))
  }

  /** What `read_file_with_frontmatter` makes of the text of a file. */
  function Read(file: string): (map<string, Val>, string) {
    ReadText(Normalized(file))
  }

  function ReadText(text: string): (map<string, Val>, string) {
    if FENCE <= text && FindFence(text[|FENCE|..]).Some? then
      var rest := text[|FENCE|..];
      var i := FindFence(rest).value;
      FindFenceIsFirst(rest);
      (ParsedText(rest[..i]), rest[i + |FENCE|..])
    else (map[], text)
  }

  lemma {:induction false} FindFenceIsFirst(s: string)
    ensures match FindFence(s)
            case None => forall j | 0 <= j <= |s| :: !(FENCE <= s[j..])
            case Some(i) => i + |FENCE| <= |s| && FENCE <= s[i..] && forall j | 0 <= j < i :: !(FENCE <= s[j..])
  {
    if FENCE <= s {
      assert s[0..] == s;
    } else if s != "" {
      FindFenceIsFirst(s[1..]);
      assert s[0..] == s;
      assert forall j | 0 < j <= |s| :: s[j..] == s[1..][j - 1..];
    }
  }

  method ReadFile(file: string) returns (frontmatter: map<string, Val>, body: string)
    ensures (frontmatter, body) == Read(file)
  {
    var content := Normalized(file);
    if FENCE <= content {
      var rest := content[|FENCE|..];
      var second := FindFence(rest);
      FindFenceIsFirst(rest);
      if second.Some? {
        var lines := Split(Strip(rest[..second.value], IsSpace), '\n');
        frontmatter := map[];
        for i := 0 to |lines|
          invariant frontmatter == ParsedLines(lines[..i])
        {
          assert Init(lines[..i + 1]) == lines[..i];
          var line := lines[i];
          if ':' in line {
            var (key, value) := Partition(line, ':');
            frontmatter := frontmatter[Strip(key, IsSpace) := Str(Unquoted(Strip(value, IsSpace)))];
          }
        }
        assert lines[..|lines|] == lines;
        body := rest[second.value + |FENCE|..];
        return;
      }
    }
    frontmatter, body := map[], content;
  }
}
