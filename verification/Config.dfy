/** The configuration file reader (host/config.zig). */
module Config {
  import opened Bytes
  import opened Text

  datatype Pair = Pair(key: string, value: string, source: string)

  const BLANKS := " \t"

  /** A '#' or ';' that opens a comment, given the character before it. */
  predicate OpensComment(before: char, c: char) {
    (c == '#' || c == ';') && before in BLANKS
  }

  predicate CommentAt(line: string, i: nat)
    requires i < |line|
  {
    OpensComment(if i == 0 then ' ' else line[i - 1], line[i])
  }

  /** The line up to its first comment, from position i on. */
  function StripFrom(line: string, i: nat): (r: string)
    requires i <= |line|
    ensures i <= |r| <= |line| && r == line[..|r|]
    ensures forall k :: i <= k < |r| ==> !CommentAt(line, k)
    ensures |r| < |line| ==> CommentAt(line, |r|)
    decreases |line| - i
  {
    if i == |line| then line
    else if CommentAt(line, i) then line[..i]
    else StripFrom(line, i + 1)
  }

  function StripComment(line: string): string {
    StripFrom(line, 0)
  }

  /** A number sign or semicolon at the start of a line or after a blank cuts the line off there. */
  lemma CommentIsCut(before: string, c: char, rest: string)
    requires c == '#' || c == ';'
    requires Free(before, '#') && Free(before, ';')
    requires before == "" || before[|before| - 1] == ' ' || before[|before| - 1] == '\t'
    ensures StripComment(before + [c] + rest) == before
  {
    var line := before + [c] + rest;
    assert BLANKS[0] == ' ' && BLANKS[1] == '\t';
    assert line[|before|] == c && forall k :: 0 <= k < |before| ==> line[k] == before[k];
    assert before != "" ==> line[|before| - 1] == before[|before| - 1];
    assert CommentAt(line, |before|);
    assert forall k :: 0 <= k < |before| ==> !CommentAt(line, k);
    assert line[..|before|] == before;
  }

  /** Elsewhere they are part of the line. */
  lemma NoCommentNoCut(line: string)
    requires line == "" || (line[0] != '#' && line[0] != ';')
    requires forall i :: 0 < i < |line| && (line[i] == '#' || line[i] == ';') ==> line[i - 1] != ' ' && line[i - 1] != '\t'
    ensures StripComment(line) == line
  {
    forall i | 0 <= i < |line|
      ensures !CommentAt(line, i)
    {
      if i > 0 && (line[i] == '#' || line[i] == ';') {
        assert line[i - 1] != ' ' && line[i - 1] != '\t';
      }
    }
  }

  /** The pair a line holds: blank lines, lines without '=' and empty keys hold none. */
  function ReadLine(raw: string, source: string): seq<Pair> {
    var line := Trim(StripComment(raw), " \t\r");
    var eq := IndexOf(line, '=');
    if eq.None? then []
    else
      var key := Trim(line[..eq.value], BLANKS);
      if key == "" then [] else [Pair(key, Trim(line[eq.value + 1..], BLANKS), source)]
  }

  function ReadLines(lines: seq<string>, source: string): seq<Pair> {
    if lines == [] then [] else ReadLine(lines[0], source) + ReadLines(lines[1..], source)
  }

  function ReadText(text: string, source: string): seq<Pair> {
    ReadLines(Split(text, '\n'), source)
  }

  lemma {:induction false} ReadLinesConcat(a: seq<string>, b: seq<string>, source: string)
    ensures ReadLines(a + b, source) == ReadLines(a, source) + ReadLines(b, source)
  {
    hide ReadLine;
    if a == [] {
      assert a + b == b;
    } else {
      TailOfConcat(a, b);
      ReadLinesConcat(a[1..], b, source);
      Assoc(ReadLine(a[0], source), ReadLines(a[1..], source), ReadLines(b, source));
    }
  }

  lemma ReadLinesSnoc(a: seq<string>, raw: string, source: string)
    ensures ReadLines(a + [raw], source) == ReadLines(a, source) + ReadLine(raw, source)
  {
    hide ReadLine;
    ReadLinesConcat(a, [raw], source);
    assert ReadLines([raw], source) == ReadLine(raw, source) + ReadLines([], source);
  }

  /** Reading a file is reading any two pieces cut at a line end, one after the other. */
  lemma ReadTextAcrossLineEnd(a: string, b: string, source: string)
    ensures ReadText(a + "\n" + b, source) == ReadText(a, source) + ReadText(b, source)
  {
    SplitAcross(a, b, '\n');
    ReadLinesConcat(Split(a, '\n'), Split(b, '\n'), source);
  }

  // ------------------------------------------------------------------
  // The format of a line
  // ------------------------------------------------------------------

  const SPACES := " \t\r"

  predicate IsKey(k: string) {
    k != "" && Free(k, '=') && k[0] !in SPACES && k[|k| - 1] !in BLANKS
  }

  predicate IsValue(v: string) {
    v != "" ==> v[0] !in BLANKS && v[|v| - 1] !in SPACES
  }

  /** The visible part of a line, with padding around key and value. */
  predicate Spelled(visible: string, k: string, v: string, a: string, b: string, c: string, d: string) {
    && visible == a + k + b + "=" + c + v + d
    && AllIn(a, SPACES) && AllIn(b, BLANKS) && AllIn(c, BLANKS) && AllIn(d, SPACES) && IsKey(k) && IsValue(v)
  }

  lemma BlanksAreSpaces(s: string)
    requires AllIn(s, BLANKS)
    ensures AllIn(s, SPACES) && Free(s, '=')
  {
    forall i | 0 <= i < |s|
      ensures s[i] in SPACES && s[i] != '='
    {
      assert s[i] in BLANKS;
      assert s[i] == ' ' || s[i] == '\t';
      assert SPACES[0] == ' ' && SPACES[1] == '\t';
    }
  }

  lemma NotSpaceNotBlank(c: char)
    requires c !in SPACES
    ensures c !in BLANKS
  {
    assert SPACES[0] == ' ' && SPACES[1] == '\t';
  }

  /** The line between the outer padding. */
  function Core(k: string, v: string, b: string, c: string): string {
    if v == "" then k + b + "=" else k + b + "=" + c + v
  }

  lemma CoreIsTrimmed(visible: string, k: string, v: string, a: string, b: string, c: string, d: string)
    requires Spelled(visible, k, v, a, b, c, d)
    ensures Trim(visible, SPACES) == Core(k, v, b, c)
  {
    var core := Core(k, v, b, c);
    assert core[0] == k[0];
    if v == "" {
      BlanksAreSpaces(c);
      assert visible == a + core + (c + d);
      assert core[|core| - 1] == '=';
      TrimPadded(a, core, c + d, SPACES);
    } else {
      assert visible == a + core + d;
      assert core[|core| - 1] == v[|v| - 1];
      TrimPadded(a, core, d, SPACES);
    }
  }

  function AfterEquals(v: string, c: string): string {
    if v == "" then "" else c + v
  }

  lemma CoreCut(k: string, v: string, b: string, c: string)
    ensures
      var line, n := Core(k, v, b, c), |k + b|;
      && line == (k + b) + ['='] + AfterEquals(v, c)
      && line[..n] == k + b && line[n + 1..] == AfterEquals(v, c)
  {
  }

  lemma CoreParts(k: string, v: string, b: string, c: string)
    requires IsKey(k) && IsValue(v) && AllIn(b, BLANKS) && AllIn(c, BLANKS)
    ensures
      var line, n := Core(k, v, b, c), |k + b|;
      && n < |line| && IndexOf(line, '=') == Some(n)
      && Trim(line[..n], BLANKS) == k && Trim(line[n + 1..], BLANKS) == v
  {
    CoreCut(k, v, b, c);
    hide Core, Trim, IndexOf;
    BlanksAreSpaces(b);
    IndexOfHead(k + b, AfterEquals(v, c), '=');
    KeyTrims(k, b);
    ValueTrims(v, c);
  }

  lemma KeyTrims(k: string, b: string)
    requires IsKey(k) && AllIn(b, BLANKS)
    ensures Trim(k + b, BLANKS) == k
  {
    hide Trim;
    NotSpaceNotBlank(k[0]);
    assert "" + k + b == k + b;
    TrimPadded("", k, b, BLANKS);
  }

  lemma ValueTrims(v: string, c: string)
    requires IsValue(v) && AllIn(c, BLANKS)
    ensures Trim(AfterEquals(v, c), BLANKS) == v
  {
    if v != "" {
      hide Trim;
      NotSpaceNotBlank(v[|v| - 1]);
      assert c + v + "" == c + v;
      TrimPadded(c, v, "", BLANKS);
    }
  }

  lemma SpelledIsRead(raw: string, source: string, k: string, v: string, a: string, b: string, c: string, d: string)
    requires Spelled(StripComment(raw), k, v, a, b, c, d)
    ensures ReadLine(raw, source) == [Pair(k, v, source)]
  {
    hide Trim, IndexOf, StripComment, Core, Spelled;
    CoreIsTrimmed(StripComment(raw), k, v, a, b, c, d);
    CoreParts(k, v, b, c) by { SpelledParts(StripComment(raw), k, v, a, b, c, d); }
    assert k != "" by { SpelledParts(StripComment(raw), k, v, a, b, c, d); }
  }

  lemma SpelledParts(visible: string, k: string, v: string, a: string, b: string, c: string, d: string)
    requires Spelled(visible, k, v, a, b, c, d)
    ensures AllIn(b, BLANKS) && AllIn(c, BLANKS) && IsKey(k) && IsValue(v) && k != ""
  {
  }

  /** A trimmed line that holds a pair is spelled that way. */
  lemma LineIsSpelled(line: string, n: nat) returns (b: string, c: string)
    requires n < |line| && line[n] == '=' && Free(line[..n], '=') && Trim(line[..n], BLANKS) != ""
    requires line[0] !in SPACES && line[|line| - 1] !in SPACES
    ensures
      var k, v := Trim(line[..n], BLANKS), Trim(line[n + 1..], BLANKS);
      line == k + b + "=" + c + v && AllIn(b, BLANKS) && AllIn(c, BLANKS) && IsKey(k) && IsValue(v)
  {
    var x, y := line[..n], line[n + 1..];
    var k, v := Trim(x, BLANKS), Trim(y, BLANKS);
    var l, r;
    l, b := TrimSplit(x, BLANKS);
    c, r := TrimSplit(y, BLANKS);
    TrimKeeps(x, BLANKS);
    TrimKeeps(y, BLANKS);
    hide Trim, AllIn;
    CutAt(line, n);
    EndsAreClean(line, l, k, b, c, v, r);
  }

  lemma CutAt(line: string, n: nat)
    requires n < |line| && line[n] == '='
    ensures line == line[..n] + "=" + line[n + 1..]
  {
  }

  lemma Padded(a: string, k: string, b: string, c: string, v: string, d: string)
    ensures a + (k + b + "=" + c + v) + d == a + k + b + "=" + c + v + d
  {
  }

  /** A line that holds a pair is spelled that way. */
  lemma ReadIsSpelled(raw: string, source: string, k: string, v: string)
      returns (a: string, b: string, c: string, d: string)
    requires ReadLine(raw, source) == [Pair(k, v, source)]
    ensures Spelled(StripComment(raw), k, v, a, b, c, d)
  {
    hide Trim, StripComment;
    var visible := StripComment(raw);
    var line := Trim(visible, SPACES);
    a, d := TrimSplit(visible, SPACES);
    TrimKeeps(visible, SPACES);
    var n := IndexOf(line, '=').value;
    b, c := LineIsSpelled(line, n);
    Padded(a, k, b, c, v, d);
  }

  lemma EndsAreClean(line: string, l: string, k: string, b: string, c: string, v: string, r: string)
    requires line == (l + k + b) + "=" + (c + v + r) && k != "" && line[0] !in SPACES && line[|line| - 1] !in SPACES
    requires AllIn(l, BLANKS) && AllIn(r, BLANKS) && AllIn(c, BLANKS)
    ensures l == "" && r == "" && k[0] !in SPACES && (v != "" ==> v[|v| - 1] !in SPACES)
    ensures line == k + b + "=" + c + v
  {
    NotSpaceNotBlank(line[0]);
    NotSpaceNotBlank(line[|line| - 1]);
    assert line[0] == k[0];
    if v != "" {
      assert line[|line| - 1] == v[|v| - 1];
    }
  }

  ghost predicate HoldsPair(raw: string, k: string, v: string) {
    exists a, b, c, d :: Spelled(StripComment(raw), k, v, a, b, c, d)
  }

  /** A line gives a pair exactly when, up to its first comment, it is that key and that value around an equals sign, with any
      blanks around them and any blanks and carriage returns at its ends; every other line gives nothing. */
  lemma ReadLineIff(raw: string, source: string, k: string, v: string)
    ensures ReadLine(raw, source) == [Pair(k, v, source)] <==> HoldsPair(raw, k, v)
    ensures ReadLine(raw, source) != [] ==> exists k, v :: ReadLine(raw, source) == [Pair(k, v, source)]
  {
    if ReadLine(raw, source) == [Pair(k, v, source)] {
      var a, b, c, d := ReadIsSpelled(raw, source, k, v);
    }
    if HoldsPair(raw, k, v) {
      var a, b, c, d :| Spelled(StripComment(raw), k, v, a, b, c, d);
      SpelledIsRead(raw, source, k, v, a, b, c, d);
    }
  }

  class Raw {
    var pairs: seq<Pair>

    constructor ()
      ensures pairs == []
    {
      pairs := [];
    }

    /** Raw.applyTextFrom: the pairs of the text, in order, after those already there. */
    method ApplyTextFrom(text: string, source: string)
      modifies this
      ensures pairs == old(pairs) + ReadText(text, source)
    {
      var lines := Split(text, '\n');
      var i := 0;
      while i < |lines|
        invariant 0 <= i <= |lines|
        invariant pairs == old(pairs) + ReadLines(lines[..i], source)
      {
        TakeSnoc(lines, i);
        ReadLinesSnoc(lines[..i], lines[i], source);
        Assoc(old(pairs), ReadLines(lines[..i], source), ReadLine(lines[i], source));
        var line := Trim(StripComment(lines[i]), " \t\r");
        i := i + 1;
        if line == "" {
          continue;
        }
        var eq := IndexOf(line, '=');
        if eq.None? {
          continue;
        }
        var key := Trim(line[..eq.value], BLANKS);
        var value := Trim(line[eq.value + 1..], BLANKS);
        if key == "" {
          continue;
        }
        pairs := pairs + [Pair(key, value, source)];
      }
      JoinSlices(lines, 0, |lines|, |lines|);
    }
  }
}
