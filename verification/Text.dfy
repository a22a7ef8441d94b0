/** Python string operations that several parts of the model rely on: `split` on one
    character, `join`, and the `strip` family. */
module Text {
  import opened Lists

  /** The characters `str.strip()` removes when it is called without an argument. */
  predicate IsSpace(c: char) {
    var n := c as int;
    || 0x09 <= n <= 0x0D || 0x1C <= n <= 0x20 || n in {0x85, 0xA0, 0x1680}
    || 0x2000 <= n <= 0x200A || n in {0x2028, 0x2029, 0x202F, 0x205F, 0x3000}
  }

  /** Among the ASCII characters these are the blank, the tab, the line breaks and four separators. */
  lemma AsciiSpaces(c: char)
    requires c < 128 as char
    ensures IsSpace(c) <==> c in {' ', '\t', '\n', '\r', 11 as char, 12 as char, 28 as char, 29 as char, 30 as char,
              31 as char}
  {
  }

  /** `s.split(c)` for a one-character separator. */
  function Split(s: string, c: char): (parts: seq<string>)
    ensures |parts| >= 1
  {
    if s == "" then [""]
    else
      var rest := Split(s[1..], c);
      if s[0] == c then [""] + rest else Push(s[0], rest)
  }

  /** Put one character in front of the first piece. */
  function Push(ch: char, parts: seq<string>): seq<string>
    requires parts != []
  {
    [[ch] + parts[0]] + parts[1..]
  }

  /** `sep.join(parts)`. */
  function Join(parts: seq<string>, sep: string): string {
    if |parts| == 0 then ""
    else if |parts| == 1 then parts[0]
    else parts[0] + sep + Join(parts[1..], sep)
  }

  function Whole(part: string): string { part }

  /** `"".join(parts)`. */
  function Concat(parts: seq<string>): string {
    FlatMap(Whole, parts)
  }

  /** The pieces of a split hold no separator, and joining them gives the text back. */
  lemma {:induction false} JoinOfSplit(s: string, c: char)
    ensures Join(Split(s, c), [c]) == s
    ensures forall p | p in Split(s, c) :: c !in p
  {
    if s != "" {
      JoinOfSplit(s[1..], c);
      var rest := Split(s[1..], c);
      if s[0] == c {
        assert ([""] + rest)[1..] == rest;
      } else {
        var parts := Push(s[0], rest);
        assert parts[1..] == rest[1..];
        assert Join(parts, [c]) == [s[0]] + Join(rest, [c]);
      }
    }
  }

  /** Only one list of separator-free pieces joins to a given text: the split. */
  lemma {:induction false} SplitOfJoin(parts: seq<string>, c: char)
    requires parts != []
    requires forall p | p in parts :: c !in p
    ensures Split(Join(parts, [c]), c) == parts
  {
    if |parts| == 1 {
      SplitFree(parts[0], c);
    } else {
      SplitOfJoin(parts[1..], c);
      SplitHead(parts[0], Join(parts[1..], [c]), c);
      assert parts[0] + [c] + Join(parts[1..], [c]) == Join(parts, [c]);
    }
  }

  lemma {:induction false} SplitFree(s: string, c: char)
    requires c !in s
    ensures Split(s, c) == [s]
  {
    if s != "" {
      SplitFree(s[1..], c);
      assert s[0] in s && [s[0]] + s[1..] == s;
      assert Split(s, c) == Push(s[0], [s[1..]]);
    }
  }

  lemma {:induction false} SplitHead(head: string, tail: string, c: char)
    requires c !in head
    ensures Split(head + [c] + tail, c) == [head] + Split(tail, c)
  {
    var s := head + [c] + tail;
    if head == "" {
      assert s[1..] == tail;
    } else {
      SplitHead(head[1..], tail, c);
      assert s[1..] == head[1..] + [c] + tail;
      assert s[0] == head[0] && s[0] in head;
      assert Split(s, c) == Push(s[0], [head[1..]] + Split(tail, c));
      assert [s[0]] + head[1..] == head;
    }
  }

  lemma {:induction false} JoinOfExtension(first: seq<string>, last: string, more: seq<string>, b: string, sep: string)
    requires more != [] && Join(more, sep) == last + b
    ensures Join(first + more, sep) == Join(first + [last], sep) + b
  {
    if first == [] {
      assert first + more == more && first + [last] == [last];
    } else {
      JoinOfExtension(first[1..], last, more, b, sep);
      assert (first + more)[1..] == first[1..] + more;
      assert (first + [last])[1..] == first[1..] + [last];
    }
  }

  /** Text that arrives later only extends the last, unfinished piece. */
  lemma SplitOfAppend(a: string, b: string, c: char)
    ensures Split(a + b, c) == Init(Split(a, c)) + Split(Last(Split(a, c)) + b, c)
  {
    var pieces := Split(a, c);
    JoinOfSplit(a, c);
    var more := Split(Last(pieces) + b, c);
    JoinOfSplit(Last(pieces) + b, c);
    assert Init(pieces) + [Last(pieces)] == pieces;
    JoinOfExtension(Init(pieces), Last(pieces), more, b, [c]);
    SplitOfJoin(Init(pieces) + more, c);
  }

  function StripLeft(s: string, drop: char -> bool): string {
    if s != "" && drop(s[0]) then StripLeft(s[1..], drop) else s
  }

  function StripRight(s: string, drop: char -> bool): string {
    if s != "" && drop(Last(s)) then StripRight(Init(s), drop) else s
  }

  /** `s.strip(...)`: remove leading and trailing characters that satisfy `drop`. */
  function Strip(s: string, drop: char -> bool): string {
    StripRight(StripLeft(s, drop), drop)
  }

  /** No character at either end would be stripped. */
  predicate Trimmed(s: string, drop: char -> bool) {
    s == "" || (!drop(s[0]) && !drop(Last(s)))
  }

  /** How many characters `lstrip` removes. */
  function LeftStripped(s: string, drop: char -> bool): (k: nat)
    ensures k <= |s|
  {
    if s != "" && drop(s[0]) then 1 + LeftStripped(s[1..], drop) else 0
  }

  lemma {:induction false} StripLeftDrops(s: string, drop: char -> bool)
    ensures var k := LeftStripped(s, drop);
            StripLeft(s, drop) == s[k..] && (k < |s| ==> !drop(s[k]))
  {
    if s != "" && drop(s[0]) {
      StripLeftDrops(s[1..], drop);
      var k := LeftStripped(s[1..], drop);
      hide LeftStripped, StripLeft;
      assert s[1..][k..] == s[1 + k..];
    } else {
      assert s[0..] == s;
    }
  }

  lemma {:induction false} LeftStrippedAreDropped(s: string, drop: char -> bool, i: nat)
    requires i < LeftStripped(s, drop)
    ensures drop(s[i])
  {
    if i > 0 {
      LeftStrippedAreDropped(s[1..], drop, i - 1);
      assert s[1..][i - 1] == s[i];
    }
  }

  lemma StripLeftIsSuffix(s: string, drop: char -> bool)
    ensures var r := StripLeft(s, drop);
            |r| <= |s| && r == s[|s| - |r|..] && (r == "" || !drop(r[0]))
            && (forall i | 0 <= i < |s| - |r| :: drop(s[i]))
  {
    hide StripLeft, LeftStripped;
    StripLeftDrops(s, drop);
    forall i: nat | i < LeftStripped(s, drop) ensures drop(s[i]) {
      LeftStrippedAreDropped(s, drop, i);
    }
  }

  lemma {:induction false} StripRightIsPrefix(s: string, drop: char -> bool)
    ensures var r := StripRight(s, drop);
            |r| <= |s| && r == s[..|r|] && (r == "" || !drop(Last(r)))
            && (forall i | |r| <= i < |s| :: drop(s[i]))
  {
    if s != "" && drop(Last(s)) {
      var rest, r := Init(s), StripRight(s, drop);
      StripRightIsPrefix(rest, drop);
      assert r == StripRight(rest, drop);
      hide StripRight;
      assert rest[..|r|] == s[..|r|];
      assert forall i | |r| <= i < |rest| :: s[i] == rest[i];
    } else {
      assert s[..|s|] == s;
    }
  }

  /** Stripping keeps a text exactly when it is trimmed, and its result is a trimmed
      middle piece of it. */
  lemma StripFacts(s: string, drop: char -> bool)
    ensures Trimmed(Strip(s, drop), drop)
    ensures Strip(s, drop) == s <==> Trimmed(s, drop)
    ensures |Strip(s, drop)| <= |s| && forall c | c in Strip(s, drop) :: c in s
  {
    StripLeftIsSuffix(s, drop);
    StripRightIsPrefix(StripLeft(s, drop), drop);
  }

  lemma {:induction false} StripLeftPadding(left: string, s: string, drop: char -> bool)
    requires forall c | c in left :: drop(c)
    ensures StripLeft(left + s, drop) == StripLeft(s, drop)
  {
    if left == "" {
      assert left + s == s;
    } else {
      StripLeftPadding(left[1..], s, drop);
      assert (left + s)[1..] == left[1..] + s;
    }
  }

  lemma {:induction false} StripRightPadding(s: string, right: string, drop: char -> bool)
    requires forall c | c in right :: drop(c)
    ensures StripRight(s + right, drop) == StripRight(s, drop)
  {
    if right == "" {
      assert s + right == s;
    } else {
      StripRightPadding(s, Init(right), drop);
      assert Init(s + right) == s + Init(right);
    }
  }

  /** Padding made of strippable characters does not matter. */
  lemma StripPadding(left: string, s: string, right: string, drop: char -> bool)
    requires forall c | c in left || c in right :: drop(c)
    requires Trimmed(s, drop)
    ensures Strip(left + s + right, drop) == s
  {
    assert left + s + right == left + (s + right);
    StripLeftPadding(left, s + right, drop);
    StripRightPadding(s, right, drop);
    if s == "" {
      assert s + right == right + "";
      StripLeftPadding(right, "", drop);
    }
  }

  /** Padding does not matter to a text of any kind. */
  lemma StripOfPadded(left: string, s: string, right: string, drop: char -> bool)
    requires forall c | c in left || c in right :: drop(c)
    ensures Strip(left + s + right, drop) == Strip(s, drop)
  {
    assert left + s + right == left + (s + right);
    StripLeftPadding(left, s + right, drop);
    if StripLeft(s, drop) == "" {
      StripLeftIsSuffix(s, drop);
      assert forall c | c in s :: drop(c);
      StripLeftPadding(s, right, drop);
      StripLeftPadding(right, "", drop);
      assert right + "" == right;
    } else {
      StripLeftBefore(s, right, drop);
      StripRightPadding(StripLeft(s, drop), right, drop);
    }
  }

  lemma {:induction false} StripLeftBefore(s: string, right: string, drop: char -> bool)
    requires StripLeft(s, drop) != ""
    ensures StripLeft(s + right, drop) == StripLeft(s, drop) + right
  {
    if drop(s[0]) {
      StripLeftBefore(s[1..], right, drop);
      assert (s + right)[1..] == s[1..] + right;
    }
  }

  /** `s.partition(c)`, without its middle: what is before the first `c` and what is after it. */
  function Partition(s: string, c: char): (string, string) {
    if s == "" then ("", "")
    else if s[0] == c then ("", s[1..])
    else
      var (head, tail) := Partition(s[1..], c);
      ([s[0]] + head, tail)
  }

  lemma {:induction false} PartitionJoins(s: string, c: char)
    ensures c !in Partition(s, c).0
    ensures c in s ==> Partition(s, c).0 + [c] + Partition(s, c).1 == s
  {
    if s != "" && s[0] != c {
      PartitionJoins(s[1..], c);
      if c in s {
        assert c in s[1..];
        assert [s[0]] + s[1..] == s;
      }
    }
  }

  lemma {:induction false} PartitionFree(s: string, c: char)
    requires c !in s
    ensures Partition(s, c) == (s, "")
  {
    if s != "" {
      PartitionFree(s[1..], c);
      assert [s[0]] + s[1..] == s;
    }
  }

  lemma {:induction false} PartitionOf(head: string, c: char, tail: string)
    requires c !in head
    ensures Partition(head + [c] + tail, c) == (head, tail)
  {
    var s := head + [c] + tail;
    if head == "" {
      assert s[1..] == tail;
    } else {
      PartitionOf(head[1..], c, tail);
      assert s[1..] == head[1..] + [c] + tail;
      assert [head[0]] + head[1..] == head;
    }
  }
}
