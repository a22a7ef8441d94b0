/** When reading a written markdown file gives back the frontmatter and the body. */
module FrontmatterMeaning {
  import opened Lists
  import opened Text
  import opened Frontmatter
  import opened Options

  /** The dictionary of the entries. */
  function MapOf(entries: Entries): map<string, Val> {
    if entries == [] then map[] else MapOf(Init(entries))[Last(entries).0 := Last(entries).1]
  }

  predicate Distinct(entries: Entries) {
    forall i, j | 0 <= i < j < |entries| :: entries[i].0 != entries[j].0
  }

  predicate PlainKey(key: string) {
    Trimmed(key, IsSpace) && ':' !in key && '\n' !in key && '\r' !in key
  }

  /** A one-line string without a quote character at either end. */
  predicate PlainValue(v: Val) {
    && OneLine(v)
    && Trimmed(v.s, IsDouble) && Trimmed(v.s, IsSingle)
  }

  predicate OneLine(v: Val) {
    v.Str? && '\n' !in v.s && '\r' !in v.s
  }

  predicate PlainBody(body: string) {
    body != "" && body[0] != '\n' && '\r' !in body
  }

  // ---- Newlines -------------------------------------------------------------------

  lemma {:induction false} NormalizedHasNoReturn(s: string)
    ensures '\r' !in Normalized(s)
    decreases |s|
  {
    if s != "" {
      if s[0] != '\r' {
        NormalizedHasNoReturn(s[1..]);
      } else if |s| > 1 && s[1] == '\n' {
        NormalizedHasNoReturn(s[2..]);
      } else {
        NormalizedHasNoReturn(s[1..]);
      }
    }
  }

  /** Behind a line, both `\r\n` and a single `\r` become one newline. */
  lemma {:induction false} LineEndsAreNormalized(line: string, rest: string)
    requires '\r' !in line
    ensures Normalized(line + "\r\n" + rest) == line + "\n" + Normalized(rest)
    ensures rest == "" || rest[0] != '\n' ==> Normalized(line + "\r" + rest) == line + "\n" + Normalized(rest)
  {
    if line == "" {
      assert (line + "\r\n" + rest)[2..] == rest && (line + "\r" + rest)[1..] == rest;
    } else {
      LineEndsAreNormalized(line[1..], rest);
      assert (line + "\r\n" + rest)[1..] == line[1..] + "\r\n" + rest;
      assert (line + "\r" + rest)[1..] == line[1..] + "\r" + rest;
      assert [line[0]] + line[1..] == line;
    }
  }

  lemma {:induction false} NormalizedKeeps(s: string)
    requires '\r' !in s
    ensures Normalized(s) == s
  {
    if s != "" {
      assert s[0] in s && forall c | c in s[1..] :: c in s;
      NormalizedKeeps(s[1..]);
    }
  }

  /** A cut that is not in the middle of `\r\n` does not matter. */
  lemma {:induction false} NormalizedOfAppend(a: string, b: string)
    requires a == "" || Last(a) != '\r' || b == "" || b[0] != '\n'
    ensures Normalized(a + b) == Normalized(a) + Normalized(b)
    decreases |a|
  {
    var s := a + b;
    if a == "" {
      assert s == b;
    } else {
      var n := Consumed(a);
      ConsumedOfAppend(a, b);
      hide Normalized, Consumed;
      NormalizedOfAppend(a[n..], b);
      NormalizedStep(a);
      NormalizedStep(s);
      assert s[n..] == a[n..] + b && s[0] == a[0];
      Prepended(if a[0] == '\r' then '\n' else a[0], Normalized(a[n..]), Normalized(b));
    }
  }

  lemma Prepended(c: char, u: string, v: string)
    ensures [c] + (u + v) == [c] + u + v
  {
  }

  /** How many characters the first character of the result stands for. */
  function Consumed(s: string): (n: nat)
    requires s != ""
    ensures 1 <= n <= |s|
  {
    if s[0] == '\r' && |s| > 1 && s[1] == '\n' then 2 else 1
  }

  lemma NormalizedStep(s: string)
    requires s != ""
    ensures Normalized(s) == [if s[0] == '\r' then '\n' else s[0]] + Normalized(s[Consumed(s)..])
  {
  }

  lemma ConsumedOfAppend(a: string, b: string)
    requires a != "" && (Last(a) != '\r' || b == "" || b[0] != '\n')
    ensures Consumed(a + b) == Consumed(a)
    ensures Consumed(a) < |a| ==> Last(a[Consumed(a)..]) == Last(a)
  {
  }

  // ---- The written file -----------------------------------------------------------

  /** The frontmatter between the fences. */
  function Block(entries: Entries): string {
    Join(Lines(entries), "\n") + "\n"
  }

  lemma {:induction false} JoinSnoc(parts: seq<string>, last: string)
    requires parts != []
    ensures Join(parts + [last], "\n") == Join(parts, "\n") + "\n" + last
  {
    if |parts| > 1 {
      JoinSnoc(parts[1..], last);
      assert (parts + [last])[1..] == parts[1..] + [last];
    } else {
      assert parts + [last] == [parts[0], last];
      assert [parts[0], last][1..] == [last];
    }
  }

  lemma WrittenIsFenced(entries: Entries, content: string)
    requires entries != []
    ensures Written(entries, content) ==
              FENCE + Block(entries) + "---" + if content != "" && content[0] != '\n' then "\n" + content else content
  {
    var lines := Lines(entries);
    assert ["---"] + lines + ["---"] == ["---"] + (lines + ["---"]);
    assert (["---"] + (lines + ["---"]))[1..] == lines + ["---"];
    JoinSnoc(lines, "---");
  }

  /** One line for each entry, with strings in double quotes. */
  function EntryText(entries: Entries): string {
    if entries == [] then ""
    else
      (match entries[0].1
       case Str(s) => entries[0].0 + ": \"" + s + "\"\n"
       case Other(printed) => entries[0].0 + ": " + printed + "\n") + EntryText(entries[1..])
  }

  lemma {:induction false} BlockIsEntryText(entries: Entries)
    requires entries != []
    ensures Block(entries) == EntryText(entries)
  {
    var line, more := Line(entries[0]), entries[1..];
    assert Lines(entries) == [line] + Lines(more);
    assert EntryText(entries) == line + "\n" + EntryText(more) by {
      match entries[0].1
      case Str(s) => assert entries[0].0 + ": \"" + s + "\"\n" == line + "\n";
      case Other(printed) => assert entries[0].0 + ": " + printed + "\n" == line + "\n";
    }
    if more == [] {
      assert Lines(entries) == [line] && EntryText(more) == "";
    } else {
      BlockIsEntryText(more);
      assert Lines(more) != [] && Lines(entries)[1..] == Lines(more);
    }
  }

  /** The text of a file: the entries between fences, and the content on a line of its own. */
  lemma WrittenText(entries: Entries, content: string)
    ensures entries == [] ==> Written(entries, content) == content
    ensures entries != [] ==>
              Written(entries, content) ==
                "---\n" + EntryText(entries) + "---" + if content == "" || content[0] == '\n' then content
                  else "\n" + content
  {
    if entries != [] {
      WrittenIsFenced(entries, content);
      BlockIsEntryText(entries);
      hide Written, Block;
    }
  }

  /** A line gives its key and its value, whether the value is bare or in quotes of one kind. */
  lemma LineIsRead(key: string, value: string)
    requires PlainKey(key) && Trimmed(value, IsSpace) && Trimmed(value, IsDouble) && Trimmed(value, IsSingle)
    ensures Parsed(key + ": " + value) == (key, Str(value))
    ensures Parsed(key + ": \"" + value + "\"") == (key, Str(value))
    ensures Parsed(key + ": '" + value + "'") == (key, Str(value))
  {
    hide Trimmed, PlainKey;
    var double, single := "\"" + value + "\"", "'" + value + "'";
    UnquotedAll(value);
    assert key + ": \"" + value + "\"" == key + ": " + double;
    assert key + ": '" + value + "'" == key + ": " + single;
    ParsedValue(key, value);
    ParsedValue(key, double);
    ParsedValue(key, single);
    hide Parsed, Unquoted;
  }

  lemma UnquotedAll(value: string)
    requires Trimmed(value, IsDouble) && Trimmed(value, IsSingle)
    ensures Unquoted(value) == value && Unquoted("\"" + value + "\"") == value && Unquoted("'" + value + "'") == value
    ensures Trimmed(value, IsSpace) ==>
              Trimmed("\"" + value + "\"", IsSpace) && Trimmed("'" + value + "'", IsSpace)
  {
    var single := "'" + value + "'";
    UnquotedKeeps(value);
    StripPadding("\"", value, "\"", IsDouble);
    StripPadding("'", value, "'", IsSingle);
    StripFacts(single, IsDouble);
    StripFacts(value, IsSingle);
    hide Strip;
  }

  /** The value of a line is what is left of it without blanks and quotes at the ends. */
  lemma ParsedValue(key: string, shown: string)
    requires PlainKey(key) && Trimmed(shown, IsSpace)
    ensures Parsed(key + ": " + shown) == (key, Str(Unquoted(shown)))
  {
    StripFacts(key, IsSpace);
    assert key + ": " + shown == key + [':'] + (" " + shown) && " " + shown + "" == " " + shown;
    StripPadding(" ", shown, "", IsSpace);
    PartitionOf(key, ':', " " + shown);
    hide Strip, Partition, Unquoted;
  }

  /** A further line adds its key, or replaces what the key had before; one without a colon is
      ignored. */
  lemma LastLineCounts(lines: seq<string>, key: string, value: string, other: string)
    requires PlainKey(key) && Trimmed(value, IsSpace) && Trimmed(value, IsDouble) && Trimmed(value, IsSingle)
    requires ':' !in other
    ensures ParsedLines(lines + [key + ": " + value]) == ParsedLines(lines)[key := Str(value)]
    ensures ParsedLines(lines + [other]) == ParsedLines(lines)
  {
    var line := key + ": " + value;
    LineIsRead(key, value);
    assert line[|key|] == ':';
    hide Parsed, Trimmed, PlainKey;
    assert Init(lines + [line]) == lines && Init(lines + [other]) == lines;
  }

  /** The text that is read back, in its parts. */
  lemma NormalizedFile(entries: Entries, content: string)
    requires entries != []
    ensures Normalized(Written(entries, content)) ==
              FENCE + Normalized(Block(entries)) + "---"
              + Normalized(if content != "" && content[0] != '\n' then "\n" + content else content)
  {
    WrittenIsFenced(entries, content);
    var tail := if content != "" && content[0] != '\n' then "\n" + content else content;
    var block := Block(entries);
    assert Written(entries, content) == FENCE + block + "---" + tail;
    var dashes := "---";
    NormalizedKeeps(FENCE);
    NormalizedKeeps(dashes);
    assert Last(FENCE) != '\r' && dashes[0] != '\n' && Last(dashes) != '\r';
    NormalizedOfParts(FENCE, block, dashes, tail);
  }

  lemma NormalizedOfParts(a: string, b: string, c: string, d: string)
    requires a != "" && c != "" && Last(a) != '\r' && c[0] != '\n' && Last(c) != '\r'
    ensures Normalized(a + b + c + d) == Normalized(a) + Normalized(b) + Normalized(c) + Normalized(d)
  {
    hide Normalized;
    assert Last(a + b + c) == Last(c);
    NormalizedOfAppend(a + b + c, d);
    NormalizedOfAppend(a + b, c);
    NormalizedOfAppend(a, b);
  }

  // ---- The body -------------------------------------------------------------------

  /** The body comes back only if it is plain: the fence that ends the frontmatter is a line of
      its own only before a body that starts a line, and the file is read with its newlines
      normalized. */
  lemma BodyComesBackOnlyIfPlain(entries: Entries, body: string)
    requires entries != []
    requires var r := Read(Written(entries, body)); r.1 == body && r.0 != map[]
    ensures PlainBody(body)
  {
    var file := Written(entries, body);
    var text := Normalized(file);
    var front := FENCE + Normalized(Block(entries)) + "---";
    NormalizedFile(entries, body);
    NormalizedHasNoReturn(file);
    var rest := text[|FENCE|..];
    FindFenceIsFirst(rest);
    var i := FindFence(rest).value;
    var k := i + 2 * |FENCE|;
    assert body == text[k..];
    assert text[k - 1] == rest[i..][|FENCE| - 1] == '\n';
    assert '\r' !in body;
    NormalizedKeeps(body);
    var tail := if body != "" && body[0] != '\n' then "\n" + body else body;
    NormalizedKeeps(tail);
    assert text == front + tail;
    assert text[|front| - 1] == '-';
    assert tail == body ==> k == |front|;
  }

  lemma ReadOfFenced(rest: string)
    requires FindFence(rest).Some?
    ensures FindFence(rest).value + |FENCE| <= |rest|
    ensures var i := FindFence(rest).value;
            ReadText(FENCE + rest) == (ParsedText(rest[..i]), rest[i + |FENCE|..])
  {
    hide FindFence, ParsedText;
    FindFenceIsFirst(rest);
    assert (FENCE + rest)[|FENCE|..] == rest;
  }

  /** The body is what follows `block` exactly if the fence behind `block` is the first one. */
  lemma ReadOfBlock(block: string, body: string)
    ensures var r := ReadText(FENCE + (block + FENCE + body));
            && (r.1 == body <==> FindFence(block + FENCE + body) == Some(|block|))
            && (r.1 == body ==> r.0 == ParsedText(block))
  {
    hide FindFence, ReadText, ParsedText;
    var rest := block + FENCE + body;
    FindFenceIsFirst(rest);
    assert rest[|block|..] == FENCE + body;
    assert FENCE <= rest[|block|..];
    ReadOfFenced(rest);
    var i := FindFence(rest).value;
    assert i == |block| ==> rest[..i] == block && rest[i + |FENCE|..] == body;
    assert |rest[i + |FENCE|..]| == |body| ==> i == |block|;
  }

  /** The frontmatter text that is parsed, for a plain body. */
  lemma ReadOfPlainBody(entries: Entries, body: string)
    requires entries != [] && PlainBody(body)
    ensures var block := Normalized(Block(entries));
            var r := Read(Written(entries, body));
            && (r.1 == body <==> FindFence(block + FENCE + body) == Some(|block|))
            && (r.1 == body ==> r.0 == ParsedText(block))
  {
    NormalizedFile(entries, body);
    NormalizedKeeps("\n" + body);
    hide Normalized, Written, Block, FindFence, ReadText, ParsedText;
    var block := Normalized(Block(entries));
    assert FENCE == "---" + "\n";
    Regrouped(FENCE, block, "---", "\n", body);
    ReadOfBlock(block, body);
  }

  lemma Regrouped(a: string, b: string, c: string, d: string, e: string)
    ensures a + b + c + (d + e) == a + (b + (c + d) + e)
  {
  }

  // ---- The entries ----------------------------------------------------------------

  /** What reading can give at all: clean keys, and one-line strings. */
  lemma {:induction false} ParsedIsClean(lines: seq<string>)
    requires forall line | line in lines :: '\n' !in line && '\r' !in line
    ensures forall key | key in ParsedLines(lines) :: PlainKey(key) && OneLine(ParsedLines(lines)[key])
  {
    if lines != [] {
      ParsedIsClean(Init(lines));
      var line := Last(lines);
      assert line in lines;
      if ':' in line {
        LineIsClean(line);
      }
      hide Parsed, PlainKey, OneLine;
    }
  }

  lemma LineIsClean(line: string)
    requires ':' in line && '\n' !in line && '\r' !in line
    ensures PlainKey(Parsed(line).0) && OneLine(Parsed(line).1)
  {
    var (key, value) := Partition(line, ':');
    PartitionJoins(line, ':');
    assert forall c | c in key || c in value :: c in line;
    StripFacts(key, IsSpace);
    StripFacts(value, IsSpace);
    StripFacts(Strip(value, IsSpace), IsDouble);
    StripFacts(Strip(Strip(value, IsSpace), IsDouble), IsSingle);
    hide Strip, Partition;
  }

  lemma ParsedTextIsClean(text: string)
    requires '\r' !in text
    ensures forall key | key in ParsedText(text) :: PlainKey(key) && OneLine(ParsedText(text)[key])
  {
    var stripped := Strip(text, IsSpace);
    StripFacts(text, IsSpace);
    JoinOfSplit(stripped, '\n');
    var lines := Split(stripped, '\n');
    forall line | line in lines ensures '\r' !in line {
      JoinHolds(lines, line);
    }
    ParsedIsClean(lines);
    hide *;
  }

  lemma {:induction false} JoinHolds(parts: seq<string>, part: string)
    requires part in parts
    ensures forall c | c in part :: c in Join(parts, "\n")
  {
    if |parts| > 1 {
      if part != parts[0] {
        JoinHolds(parts[1..], part);
      }
    }
  }

  lemma {:induction false} MapOfAt(entries: Entries, i: nat)
    requires Distinct(entries) && i < |entries|
    ensures entries[i].0 in MapOf(entries) && MapOf(entries)[entries[i].0] == entries[i].1
  {
    if i < |entries| - 1 {
      MapOfAt(Init(entries), i);
    }
  }

  /** One written line, read back. */
  lemma LineReadsBack(entry: (string, Val))
    requires PlainKey(entry.0) && entry.1.Str?
    ensures ':' in Line(entry) && Parsed(Line(entry)) == (entry.0, Str(Unquoted(entry.1.s)))
  {
    var (key, value) := entry;
    var quoted := "\"" + value.s + "\"";
    assert Line(entry) == key + [':'] + (" " + quoted);
    PartitionOf(key, ':', " " + quoted);
    StripFacts(key, IsSpace);
    assert " " + quoted + "" == " " + quoted;
    StripPadding(" ", quoted, "", IsSpace);
    StripOfPadded("\"", value.s, "\"", IsDouble);
  }

  /** Stripping the quotes keeps a value exactly if it is trimmed of both. */
  lemma UnquotedKeeps(s: string)
    ensures Unquoted(s) == s <==> Trimmed(s, IsDouble) && Trimmed(s, IsSingle)
  {
    StripFacts(s, IsDouble);
    StripFacts(Strip(s, IsDouble), IsSingle);
    StripIsSlice(s, IsDouble);
    hide Strip;
  }

  lemma StripIsSlice(s: string, drop: char -> bool)
    ensures |Strip(s, drop)| == |s| ==> Strip(s, drop) == s
  {
    StripLeftIsSuffix(s, drop);
    StripRightIsPrefix(StripLeft(s, drop), drop);
  }

  /** The entries as they are read back. */
  function Shown(entries: Entries): Entries
    requires forall e | e in entries :: e.1.Str?
  {
    seq(|entries|, i requires 0 <= i < |entries| => (entries[i].0, Str(Unquoted(entries[i].1.s))))
  }

  predicate Clean(entries: Entries) {
    forall e | e in entries :: PlainKey(e.0) && OneLine(e.1)
  }

  lemma {:induction false} LinesReadBack(entries: Entries)
    requires Clean(entries)
    ensures ParsedLines(Lines(entries)) == MapOf(Shown(entries))
  {
    hide PlainKey, Parsed, Line, Unquoted;
    if entries != [] {
      var before := Init(entries);
      LinesReadBack(before);
      assert Init(Lines(entries)) == Lines(before) && Last(Lines(entries)) == Line(Last(entries));
      assert Init(Shown(entries)) == Shown(before);
      assert Last(Shown(entries)) == (Last(entries).0, Str(Unquoted(Last(entries).1.s)));
      LineReadsBack(Last(entries));
      hide Lines, Shown;
    }
  }

  lemma ShownIsSameIffPlain(entries: Entries)
    requires Clean(entries) && Distinct(entries)
    ensures MapOf(Shown(entries)) == MapOf(entries) <==> forall e | e in entries :: PlainValue(e.1)
  {
    var shown := Shown(entries);
    forall i | 0 <= i < |entries|
      ensures shown[i] == entries[i] <==> PlainValue(entries[i].1)
      ensures MapOf(shown) == MapOf(entries) ==> shown[i] == entries[i]
    {
      UnquotedKeeps(entries[i].1.s);
      MapOfAt(entries, i);
      MapOfAt(shown, i);
    }
    if forall e | e in entries :: PlainValue(e.1) {
      assert shown == entries;
    }
  }

  // ---- No fence inside ------------------------------------------------------------

  /** Every line ends in a quote character. */
  predicate Quoted(s: string) {
    forall p | 0 <= p < |s| && s[p] == '\n' :: p > 0 && s[p - 1] == '"'
  }

  lemma {:induction false} BlockIsQuoted(lines: seq<string>)
    requires lines != []
    requires forall line | line in lines :: line != "" && '\n' !in line && '\r' !in line && Last(line) == '"'
    ensures var block := Join(lines, "\n") + "\n";
            Quoted(block) && '\r' !in block && block[0] == lines[0][0] && |block| > 1 && block[|block| - 2] == '"'
  {
    var block := Join(lines, "\n") + "\n";
    if |lines| == 1 {
      assert lines[0] in lines;
    } else {
      assert forall line | line in lines[1..] :: line in lines;
      BlockIsQuoted(lines[1..]);
      var more := Join(lines[1..], "\n") + "\n";
      assert lines[0] in lines;
      assert block == lines[0] + "\n" + more;
      hide Join, Quoted;
      QuotedOnTop(lines[0], more);
    }
  }

  lemma QuotedOnTop(line: string, more: string)
    requires line != "" && '\n' !in line && Last(line) == '"' && more != "" && Quoted(more)
    ensures Quoted(line + "\n" + more)
  {
    var block := line + "\n" + more;
    assert forall p | 0 <= p < |line| :: block[p] == line[p] && line[p] in line;
    forall p | 0 <= p < |block| && block[p] == '\n' ensures p > 0 && block[p - 1] == '"' {
      if p > |line| {
        assert block[p] == more[p - |line| - 1];
        assert p - 1 > |line| ==> block[p - 1] == more[p - |line| - 2];
      } else {
        assert p == |line| && block[p - 1] == line[p - 1];
      }
    }
  }

  /** The first fence after such lines is the one behind them. */
  lemma FenceIsBehind(block: string, body: string)
    requires Quoted(block)
    ensures FindFence(block + FENCE + body) == Some(|block|)
  {
    var rest := block + FENCE + body;
    FindFenceIsFirst(rest);
    assert rest[|block|..] == FENCE + body;
    forall j | 0 <= j < |block| ensures !(FENCE <= rest[j..]) {
      if j + 3 < |block| {
        assert rest[j + 3] == block[j + 3] && rest[j + 2] == block[j + 2];
      } else {
        assert rest[j + 3] == FENCE[j + 3 - |block|] == '-';
      }
      assert rest[j..][3] == rest[j + 3] && rest[j..][2] == rest[j + 2] && FENCE[3] == '\n' && FENCE[2] == '-';
    }
  }

  lemma CleanLines(entries: Entries)
    requires Clean(entries) && entries != []
    ensures Normalized(Block(entries)) == Block(entries) && Quoted(Block(entries))
    ensures Split(Strip(Block(entries), IsSpace), '\n') == Lines(entries)
  {
    var lines := Lines(entries);
    hide Normalized, Quoted, Split, Strip, Join;
    forall i | 0 <= i < |lines|
      ensures lines[i] != "" && '\n' !in lines[i] && '\r' !in lines[i] && Last(lines[i]) == '"' && !IsSpace(lines[i][0])
    {
      LineIsQuoted(entries[i]);
    }
    hide Line, PlainKey, OneLine;
    BlockIsQuoted(lines);
    NormalizedKeeps(Block(entries));
    hide Lines;
    var joined := Join(lines, "\n");
    assert joined == Block(entries)[..|Block(entries)| - 1];
    assert joined[0] == lines[0][0] && Last(joined) == '"';
    assert "" + joined + "\n" == Block(entries);
    StripPadding("", joined, "\n", IsSpace);
    SplitOfJoin(lines, '\n');
  }

  lemma LineIsQuoted(entry: (string, Val))
    requires PlainKey(entry.0) && OneLine(entry.1)
    ensures var line := Line(entry);
            line != "" && '\n' !in line && '\r' !in line && Last(line) == '"' && !IsSpace(line[0])
  {
  }

  // ---- The round trip -------------------------------------------------------------

  /** Main result. Reading what was written gives back the dictionary and the body exactly if
      every key is trimmed, one line and without a colon, every value is a one-line string that
      neither starts nor ends with a quote character, and the body is not empty, does not start
      with a newline and has no carriage return. */
  lemma RoundTripExactlyIf(entries: Entries, body: string)
    requires entries != [] && Distinct(entries)
    ensures Read(Written(entries, body)) == (MapOf(entries), body)
            <==> (forall e | e in entries :: PlainKey(e.0) && PlainValue(e.1)) && PlainBody(body)
  {
    MapOfAt(entries, 0);
    if (forall e | e in entries :: PlainKey(e.0) && PlainValue(e.1)) && PlainBody(body) {
      ReadOfClean(entries, body);
    }
    if Read(Written(entries, body)) == (MapOf(entries), body) {
      BodyComesBackOnlyIfPlain(entries, body);
      ReadOfPlainBody(entries, body);
      var block := Normalized(Block(entries));
      NormalizedHasNoReturn(Block(entries));
      ParsedTextIsClean(block);
      forall i | 0 <= i < |entries| ensures PlainKey(entries[i].0) && OneLine(entries[i].1) {
        MapOfAt(entries, i);
      }
      ReadOfClean(entries, body);
    }
  }

  /** For instance, an empty body never comes back together with the frontmatter. */
  lemma EmptyBodyIsLost(key: string, value: string)
    ensures Read(Written([(key, Str(value))], "")) != (MapOf([(key, Str(value))]), "")
  {
    RoundTripExactlyIf([(key, Str(value))], "");
    hide Read, Written, MapOf;
  }

  lemma ReadOfClean(entries: Entries, body: string)
    requires entries != [] && Distinct(entries) && Clean(entries) && PlainBody(body)
    ensures Read(Written(entries, body)) == (MapOf(Shown(entries)), body)
    ensures MapOf(Shown(entries)) == MapOf(entries) <==> forall e | e in entries :: PlainValue(e.1)
  {
    CleanLines(entries);
    FenceIsBehind(Block(entries), body);
    ReadOfPlainBody(entries, body);
    LinesReadBack(entries);
    ShownIsSameIffPlain(entries);
  }

  /** Without frontmatter the file is the content, and it comes back exactly if it has no
      carriage return and does not itself look like a file with frontmatter. */
  lemma ContentAloneExactlyIf(content: string)
    ensures Read(Written([], content)) == (map[], content)
            <==> '\r' !in content && !(FENCE <= content && FindFence(content[|FENCE|..]).Some?)
  {
    NormalizedHasNoReturn(content);
    if '\r' !in content {
      NormalizedKeeps(content);
    }
    if FENCE <= content {
      FindFenceIsFirst(content[|FENCE|..]);
    }
    NormalizedIsShorter(content);
  }

  lemma {:induction false} NormalizedIsShorter(s: string)
    ensures |Normalized(s)| <= |s|
    decreases |s|
  {
    if s != "" {
      if s[0] != '\r' {
        NormalizedIsShorter(s[1..]);
      } else if |s| > 1 && s[1] == '\n' {
        NormalizedIsShorter(s[2..]);
      } else {
        NormalizedIsShorter(s[1..]);
      }
    }
  }
}
