/** Operations on text that the parsers share; their sources are Go's strings and bufio packages. */
module Text {
  import opened Wrappers

  // ----- characters -----

  /** What cleanLine removes. */
  predicate Blank(c: char) {
    c == ' ' || '\t' <= c <= '\r'
  }

  /** unicode.IsSpace, which strings.TrimSpace uses. */
  predicate Space(c: char) {
    || Blank(c) || c == '\U{85}' || c == '\U{A0}' || c == '\U{1680}' || '\U{2000}' <= c <= '\U{200A}'
    || c == '\U{2028}' || c == '\U{2029}' || c == '\U{202F}' || c == '\U{205F}' || c == '\U{3000}'
  }

  /** A character that no step of the line parsers treats specially. */
  predicate Graphic(c: char) {
    '!' <= c <= '~' && c != '#' && c != ','
  }

  predicate Token(s: string) {
    forall i :: 0 <= i < |s| ==> Graphic(s[i])
  }

  /** Besides A to Z, two letters outside ASCII have an ASCII lower case. */
  function LowerChar(c: char): char {
    if 'A' <= c <= 'Z' then (c as int + 32) as char
    else if c == '\U{130}' then 'i'
    else if c == '\U{212A}' then 'k'
    else c
  }

  function Lower(s: string): string {
    seq(|s|, i requires 0 <= i < |s| => LowerChar(s[i]))
  }

  function ByteLength(s: string): nat
  {
    if s == [] then 0
    else
      var c := s[|s| - 1] as int;
      ByteLength(s[..|s| - 1]) + if c < 0x80 then 1 else if c < 0x800 then 2 else if c < 0x10000 then 3 else 4
  }

  // ----- searching -----

  /** The first position of `c`, or the length of `s`. */
  function First(s: string, c: char): (i: nat)
    ensures i <= |s|
    ensures forall j :: 0 <= j < i ==> s[j] != c
    ensures i < |s| ==> s[i] == c
  {
    if s == [] || s[0] == c then 0 else 1 + First(s[1..], c)
  }

  /** One past the last position of `c`, or zero. */
  function AfterLast(s: string, c: char): (i: nat)
    ensures i <= |s|
    ensures forall j :: i <= j < |s| ==> s[j] != c
    ensures i > 0 ==> s[i - 1] == c
  {
    if s == [] then 0
    else if s[|s| - 1] == c then |s|
    else AfterLast(s[..|s| - 1], c)
  }

  predicate HasPrefix(s: string, prefix: string) {
    prefix <= s
  }

  predicate Absent(s: string, c: char) {
    forall i :: 0 <= i < |s| ==> s[i] != c
  }

  lemma {:induction false} FirstAfter(a: string, c: char, b: string)
    requires Absent(a, c)
    ensures First(a + [c] + b, c) == |a|
    ensures (a + [c] + b)[..|a|] == a && (a + [c] + b)[|a| + 1..] == b
  {
    var s := a + [c] + b;
    assert forall i :: 0 <= i < |a| ==> s[i] == a[i];
    assert s[|a|] == c;
  }

  lemma {:induction false} FirstNone(s: string, c: char)
    requires Absent(s, c)
    ensures First(s, c) == |s|
  {
  }

  lemma {:induction false} LastBefore(a: string, c: char, b: string)
    requires Absent(b, c)
    ensures AfterLast(a + [c] + b, c) == |a| + 1
    ensures (a + [c] + b)[..|a|] == a && (a + [c] + b)[|a| + 1..] == b
  {
    var s := a + [c] + b;
    assert forall i :: 0 <= i < |b| ==> s[|a| + 1 + i] == b[i];
    assert forall i :: |a| + 1 <= i < |s| ==> s[i] == b[i - |a| - 1];
    assert s[|a|] == c;
  }

  // ----- trimming -----

  function TrimLeft(s: string): (r: string)
    ensures r != [] ==> !Space(r[0])
  {
    if s != [] && Space(s[0]) then TrimLeft(s[1..]) else s
  }

  function TrimRight(s: string): (r: string)
    ensures r != [] ==> !Space(r[|r| - 1])
    ensures r <= s
  {
    if s != [] && Space(s[|s| - 1]) then TrimRight(s[..|s| - 1]) else s
  }

  function Trim(s: string): string {
    TrimRight(TrimLeft(s))
  }

  predicate Trimmed(s: string) {
    s == [] || (!Space(s[0]) && !Space(s[|s| - 1]))
  }

  lemma {:induction false} TrimTrimmed(s: string)
    requires Trimmed(s)
    ensures Trim(s) == s && Trim([' '] + s) == s
  {
    assert TrimLeft(s) == s && TrimRight(s) == s;
    var t := [' '] + s;
    assert t[0] == ' ' && t[1..] == s;
    assert TrimLeft(t) == TrimLeft(t[1..]);
  }

  /** A text that starts with a visible character still starts with it. */
  lemma {:induction false} TrimKeepsStart(s: string)
    requires s != [] && !Space(s[0])
    ensures Trim(s) != [] && Trim(s)[0] == s[0] && Trim(s) <= s
  {
    assert TrimLeft(s) == s;
    TrimRightKeepsStart(s);
  }

  lemma {:induction false} TrimRightKeepsStart(s: string)
    requires s != [] && !Space(s[0])
    ensures TrimRight(s) != [] && TrimRight(s)[0] == s[0]
  {
    if |s| > 1 && Space(s[|s| - 1]) {
      TrimRightKeepsStart(s[..|s| - 1]);
    }
  }

  // ----- cleaning a line -----

  function Squeeze(s: string): (r: string)
    ensures |r| <= |s|
  {
    if s == [] then []
    else Squeeze(s[..|s| - 1]) + if Blank(s[|s| - 1]) then [] else [s[|s| - 1]]
  }

  /** cleanLine: the text before the first '#', without blanks. */
  function Clean(line: string): string {
    Squeeze(line[..First(line, '#')])
  }

  lemma {:induction false} SqueezeConcat(a: string, b: string)
    ensures Squeeze(a + b) == Squeeze(a) + Squeeze(b)
    decreases |b|
  {
    if b == [] {
      assert a + b == a;
    } else {
      var b', c := b[..|b| - 1], b[|b| - 1];
      assert (a + b)[..|a + b| - 1] == a + b';
      SqueezeConcat(a, b');
    }
  }

  lemma {:induction false} SqueezeToken(s: string)
    requires Token(s)
    ensures Squeeze(s) == s && Absent(s, '#') && Absent(s, ',') && Absent(s, '\n')
  {
    if s == [] {
    } else {
      SqueezeToken(s[..|s| - 1]);
      assert Graphic(s[|s| - 1]);
      assert s == s[..|s| - 1] + [s[|s| - 1]];
    }
  }

  // ----- splitting and joining -----

  function Split(s: string, c: char): (r: seq<string>)
    ensures r != []
    decreases |s|
  {
    var i := First(s, c);
    if i == |s| then [s] else [s[..i]] + Split(s[i + 1..], c)
  }

  function Join(parts: seq<string>, separator: string): string
  {
    if parts == [] then []
    else if |parts| == 1 then parts[0]
    else parts[0] + separator + Join(parts[1..], separator)
  }

  predicate AllAbsent(parts: seq<string>, c: char) {
    forall i :: 0 <= i < |parts| ==> Absent(parts[i], c)
  }

  lemma {:induction false} SplitAfter(a: string, c: char, b: string)
    requires Absent(a, c)
    ensures Split(a + [c] + b, c) == [a] + Split(b, c)
  {
    FirstAfter(a, c, b);
  }

  /** Splitting at a separator that no part contains undoes joining. */
  lemma {:induction false} SplitJoin(parts: seq<string>, c: char)
    requires parts != [] && AllAbsent(parts, c)
    ensures Split(Join(parts, [c]), c) == parts
  {
    if |parts| == 1 {
      FirstNone(parts[0], c);
    } else {
      var rest := parts[1..];
      assert AllAbsent(rest, c) by {
        assert forall i :: 0 <= i < |rest| ==> rest[i] == parts[i + 1];
      }
      SplitJoin(rest, c);
      SplitAfter(parts[0], c, Join(rest, [c]));
      assert parts == [parts[0]] + rest;
    }
  }

  /** Joining what was split gives the text back. */
  lemma {:induction false} JoinSplit(s: string, c: char)
    ensures Join(Split(s, c), [c]) == s
    decreases |s|
  {
    var i := First(s, c);
    if i == |s| {
    } else {
      var rest := Split(s[i + 1..], c);
      JoinSplit(s[i + 1..], c);
      assert ([s[..i]] + rest)[1..] == rest;
      assert s == s[..i] + [c] + s[i + 1..];
    }
  }

  /** strings.Cut: the texts around the first `c`. */
  function Cut(s: string, c: char): Option<(string, string)> {
    var i := First(s, c);
    if i == |s| then None else Some((s[..i], s[i + 1..]))
  }

  // ----- lines -----

  /** The lines of a text; a last line may lack its newline. */
  function Lines(text: string): seq<string>
    decreases |text|
  {
    if text == [] then []
    else
      var i := First(text, '\n');
      if i == |text| then [text] else [text[..i]] + Lines(text[i + 1..])
  }

  /** What Fprintln writes for each line. */
  function Unlines(lines: seq<string>): string
  {
    if lines == [] then [] else Unlines(lines[..|lines| - 1]) + lines[|lines| - 1] + "\n"
  }

  lemma {:induction false} UnlinesConcat(a: seq<string>, b: seq<string>)
    ensures Unlines(a + b) == Unlines(a) + Unlines(b)
    decreases |b|
  {
    if b == [] {
      assert a + b == a;
    } else {
      var b' := b[..|b| - 1];
      assert (a + b)[..|a + b| - 1] == a + b';
      UnlinesConcat(a, b');
      assert Unlines(a + b) == Unlines(a) + (Unlines(b') + b[|b| - 1] + "\n");
    }
  }

  lemma {:induction false} LinesUnlines(lines: seq<string>)
    requires AllAbsent(lines, '\n')
    ensures Lines(Unlines(lines)) == lines
    decreases |lines|
  {
    if lines == [] {
    } else {
      var head, rest := lines[0], lines[1..];
      assert lines == [head] + rest;
      UnlinesConcat([head], rest);
      assert Unlines([head]) == head + "\n" by {
        assert [head][..0] == [];
      }
      assert AllAbsent(rest, '\n') by {
        assert forall i :: 0 <= i < |rest| ==> rest[i] == lines[i + 1];
      }
      LinesUnlines(rest);
      FirstAfter(head, '\n', Unlines(rest));
    }
  }

  /** bufio.ScanLines drops one carriage return before the newline. */
  function DropCR(line: string): string {
    if line != [] && line[|line| - 1] == '\r' then line[..|line| - 1] else line
  }
}
