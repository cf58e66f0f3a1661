/** ASCII text: splitting, trimming, case, decimal and hexadecimal numbers. */
module Text {
  import opened Bytes

  // ------------------------------------------------------------------
  // Fields between separators
  // ------------------------------------------------------------------

  predicate Free(s: string, c: char) {
    c !in s
  }

  predicate AllFree(parts: seq<string>, c: char) {
    forall i :: 0 <= i < |parts| ==> Free(parts[i], c)
  }

  /** The pieces between separators; there is always at least one. */
  function Split(s: string, sep: char): (parts: seq<string>)
    ensures parts != []
  {
    if s == "" then [""]
    else
      var rest := Split(s[1..], sep);
      if s[0] == sep then [""] + rest else [[s[0]] + rest[0]] + rest[1..]
  }

  function Join(parts: seq<string>, sep: char): string
    requires parts != []
  {
    if |parts| == 1 then parts[0] else parts[0] + [sep] + Join(parts[1..], sep)
  }

  lemma {:induction false} SplitFree(s: string, sep: char)
    requires Free(s, sep)
    ensures Split(s, sep) == [s]
  {
    if s != "" {
      SplitFree(s[1..], sep);
      assert [s[0]] + s[1..] == s;
    }
  }

  lemma {:induction false} SplitHead(p: string, rest: string, sep: char)
    requires Free(p, sep)
    ensures Split(p + [sep] + rest, sep) == [p] + Split(rest, sep)
  {
    var s := p + [sep] + rest;
    if p == "" {
      assert s[0] == sep && s[1..] == rest;
    } else {
      SplitHead(p[1..], rest, sep);
      assert s[0] == p[0] && s[1..] == p[1..] + [sep] + rest;
      assert [p[0]] + p[1..] == p;
    }
  }

  /** Fields without the separator survive being joined and split. */
  lemma {:induction false} SplitJoin(parts: seq<string>, sep: char)
    requires parts != [] && AllFree(parts, sep)
    ensures Split(Join(parts, sep), sep) == parts
  {
    if |parts| == 1 {
      SplitFree(parts[0], sep);
    } else {
      SplitHead(parts[0], Join(parts[1..], sep), sep);
      SplitJoin(parts[1..], sep);
    }
  }

  lemma {:induction false} SplitAcross(a: string, b: string, sep: char)
    ensures Split(a + [sep] + b, sep) == Split(a, sep) + Split(b, sep)
  {
    var s := a + [sep] + b;
    if a == "" {
      assert s[0] == sep && s[1..] == b;
    } else {
      assert s[0] == a[0] && s[1..] == a[1..] + [sep] + b;
      SplitAcross(a[1..], b, sep);
    }
  }

  lemma {:induction false} SplitPieces(s: string, sep: char)
    ensures AllFree(Split(s, sep), sep)
  {
    if s != "" {
      SplitPieces(s[1..], sep);
    }
  }

  /** The pieces joined again are the text. */
  lemma {:induction false} JoinSplit(s: string, sep: char)
    ensures Join(Split(s, sep), sep) == s
  {
    if s != "" {
      JoinSplit(s[1..], sep);
      var rest := Split(s[1..], sep);
      if s[0] == sep {
        assert ([""] + rest)[1..] == rest;
      } else {
        assert ([[s[0]] + rest[0]] + rest[1..])[1..] == rest[1..];
      }
    }
  }

  function IndexOf(s: string, c: char): (r: Option<nat>)
    ensures r.Some? ==> r.value < |s| && s[r.value] == c && c !in s[..r.value]
    ensures r.None? ==> c !in s
  {
    if s == "" then None
    else if s[0] == c then Some(0)
    else
      var r := IndexOf(s[1..], c);
      assert forall k :: 0 < k < |s| ==> s[k] == s[1..][k - 1];
      if r.None? then None
      else
        assert s[..r.value + 1] == [s[0]] + s[1..][..r.value];
        Some(r.value + 1)
  }

  lemma IndexOfHead(p: string, rest: string, c: char)
    requires Free(p, c)
    ensures IndexOf(p + [c] + rest, c) == Some(|p|)
  {
    var s := p + [c] + rest;
    assert s[|p|] == c;
    assert forall k :: 0 <= k < |p| ==> s[k] == p[k] != c;
  }

  // ------------------------------------------------------------------
  // Trimming
  // ------------------------------------------------------------------

  function TrimLeft(s: string, cut: string): string {
    if s != "" && s[0] in cut then TrimLeft(s[1..], cut) else s
  }

  function TrimRight(s: string, cut: string): string {
    if s != "" && s[|s| - 1] in cut then TrimRight(s[..|s| - 1], cut) else s
  }

  function Trim(s: string, cut: string): string {
    TrimRight(TrimLeft(s, cut), cut)
  }

  lemma TrimNothing(s: string, cut: string)
    requires s != "" ==> s[0] !in cut && s[|s| - 1] !in cut
    ensures Trim(s, cut) == s
  {
  }

  lemma {:induction false} TrimLeftKeeps(s: string, cut: string)
    ensures |TrimLeft(s, cut)| <= |s| && TrimLeft(s, cut) == s[|s| - |TrimLeft(s, cut)|..]
    ensures TrimLeft(s, cut) != "" ==> TrimLeft(s, cut)[0] !in cut
  {
    if s != "" && s[0] in cut {
      TrimLeftKeeps(s[1..], cut);
    }
  }

  lemma {:induction false} TrimRightKeeps(s: string, cut: string)
    ensures |TrimRight(s, cut)| <= |s| && TrimRight(s, cut) == s[..|TrimRight(s, cut)|]
    ensures TrimRight(s, cut) != "" ==> TrimRight(s, cut)[|TrimRight(s, cut)| - 1] !in cut
  {
    if s != "" && s[|s| - 1] in cut {
      TrimRightKeeps(s[..|s| - 1], cut);
    }
  }

  /** Trimming keeps a slice that neither starts nor ends in a trimmed character. */
  lemma TrimKeeps(s: string, cut: string)
    ensures var r := Trim(s, cut);
      && (r != "" ==> r[0] !in cut && r[|r| - 1] !in cut)
      && (forall c :: Free(s, c) ==> Free(r, c))
  {
    var l := TrimLeft(s, cut);
    TrimLeftKeeps(s, cut);
    TrimRightKeeps(l, cut);
  }

  predicate AllIn(s: string, cut: string) {
    forall i :: 0 <= i < |s| ==> s[i] in cut
  }

  lemma {:induction false} TrimLeftSplit(s: string, cut: string)
    ensures |TrimLeft(s, cut)| <= |s| && AllIn(s[..|s| - |TrimLeft(s, cut)|], cut)
  {
    if s != "" && s[0] in cut {
      TrimLeftSplit(s[1..], cut);
      TrimLeftKeeps(s[1..], cut);
      var n := |s| - |TrimLeft(s, cut)|;
      assert s[..n] == [s[0]] + s[1..][..n - 1];
    }
  }

  lemma {:induction false} TrimRightSplit(s: string, cut: string)
    ensures |TrimRight(s, cut)| <= |s| && AllIn(s[|TrimRight(s, cut)|..], cut)
  {
    if s != "" && s[|s| - 1] in cut {
      TrimRightSplit(s[..|s| - 1], cut);
      TrimRightKeeps(s[..|s| - 1], cut);
      var n := |TrimRight(s, cut)|;
      assert s[n..] == s[..|s| - 1][n..] + [s[|s| - 1]];
    }
  }

  /** What trimming takes off is at the ends, and all of it is to be trimmed. */
  lemma TrimSplit(s: string, cut: string) returns (left: string, right: string)
    ensures s == left + Trim(s, cut) + right && AllIn(left, cut) && AllIn(right, cut)
  {
    var l := TrimLeft(s, cut);
    TrimLeftKeeps(s, cut);
    TrimLeftSplit(s, cut);
    TrimRightKeeps(l, cut);
    TrimRightSplit(l, cut);
    left, right := s[..|s| - |l|], l[|Trim(s, cut)|..];
    assert s == left + l && l == Trim(s, cut) + right;
  }

  lemma {:induction false} TrimLeftPadded(left: string, s: string, cut: string)
    requires AllIn(left, cut) && (s != "" ==> s[0] !in cut)
    ensures TrimLeft(left + s, cut) == s
  {
    if left == "" {
      assert left + s == s;
    } else {
      TailOfConcat(left, s);
      TrimLeftPadded(left[1..], s, cut);
    }
  }

  lemma {:induction false} TrimRightPadded(s: string, right: string, cut: string)
    requires AllIn(right, cut) && (s != "" ==> s[|s| - 1] !in cut)
    ensures TrimRight(s + right, cut) == s
  {
    if right == "" {
      assert s + right == s;
    } else {
      var n := |right| - 1;
      assert (s + right)[|s + right| - 1] == right[n] && (s + right)[..|s + right| - 1] == s + right[..n];
      TrimRightPadded(s, right[..n], cut);
    }
  }

  /** Padding comes off again, and nothing else. */
  lemma TrimPadded(left: string, s: string, right: string, cut: string)
    requires AllIn(left, cut) && AllIn(right, cut) && (s != "" ==> s[0] !in cut && s[|s| - 1] !in cut)
    ensures Trim(left + s + right, cut) == s
  {
    if s == "" {
      assert left + s + right == (left + right) + "";
      TrimLeftPadded(left + right, "", cut);
    } else {
      Assoc(left, s, right);
      TrimLeftPadded(left, s + right, cut);
      TrimRightPadded(s, right, cut);
    }
  }

  // ------------------------------------------------------------------
  // Letter case
  // ------------------------------------------------------------------

  function LowerChar(c: char): char {
    if 'A' <= c <= 'Z' then (c as int - 'A' as int + 'a' as int) as char else c
  }

  function Lower(s: string): (r: string)
    ensures |r| == |s|
  {
    seq(|s|, i requires 0 <= i < |s| => LowerChar(s[i]))
  }

  predicate EqualIgnoreCase(a: string, b: string) {
    Lower(a) == Lower(b)
  }

  // ------------------------------------------------------------------
  // Decimal numbers
  // ------------------------------------------------------------------

  predicate IsDigit(c: char) {
    '0' <= c <= '9'
  }

  function Digit(n: nat): (c: char)
    requires n < 10
    ensures IsDigit(c) && c as int - '0' as int == n
  {
    ('0' as int + n) as char
  }

  function Decimal(n: nat): (s: string)
    ensures s != "" && forall i :: 0 <= i < |s| ==> IsDigit(s[i])
  {
    if n < 10 then [Digit(n)] else Decimal(n / 10) + [Digit(n % 10)]
  }

  /** Digits onto an accumulator, with overflow as an error; underscores are skipped. */
  function Accumulate(s: string, acc: nat, max: nat): Option<nat> {
    if s == "" then Some(acc)
    else if s[0] == '_' then Accumulate(s[1..], acc, max)
    else if !IsDigit(s[0]) then None
    else
      var v := acc * 10 + (s[0] as int - '0' as int);
      if v > max then None else Accumulate(s[1..], v, max)
  }

  function Digits(s: string, max: nat): Option<nat> {
    if s == "" || s[0] == '_' || s[|s| - 1] == '_' then None else Accumulate(s, 0, max)
  }

  /** Zig's parseInt for an unsigned type with the given maximum, base ten. */
  function ParseInt(s: string, max: nat): Option<nat> {
    if s == "" then None
    else if s[0] == '+' then Digits(s[1..], max)
    else if s[0] == '-' then Digits(s[1..], 0)
    else Digits(s, max)
  }

  lemma {:induction false} AccumulateConcat(a: string, b: string, acc: nat, max: nat)
    ensures Accumulate(a + b, acc, max) ==
            var r := Accumulate(a, acc, max);
            if r.None? then None else Accumulate(b, r.value, max)
  {
    if a == "" {
      assert a + b == b;
    } else {
      TailOfConcat(a, b);
      if a[0] == '_' {
        AccumulateConcat(a[1..], b, acc, max);
      } else if IsDigit(a[0]) {
        AccumulateConcat(a[1..], b, acc * 10 + (a[0] as int - '0' as int), max);
      }
    }
  }

  lemma {:induction false} AccumulateDecimal(n: nat, max: nat)
    requires n <= max
    ensures Accumulate(Decimal(n), 0, max) == Some(n)
  {
    if n < 10 {
      assert Decimal(n)[1..] == "";
    } else {
      AccumulateDecimal(n / 10, max);
      AccumulateConcat(Decimal(n / 10), [Digit(n % 10)], 0, max);
      assert [Digit(n % 10)][1..] == "";
    }
  }

  /** Printing and parsing a number gives it back, or an overflow. */
  lemma DecimalRoundTrip(n: nat, max: nat)
    requires n <= max
    ensures ParseInt(Decimal(n), max) == Some(n)
  {
    AccumulateDecimal(n, max);
    var s := Decimal(n);
    assert IsDigit(s[0]) && IsDigit(s[|s| - 1]);
  }

  lemma DecimalInjective(m: nat, n: nat)
    requires Decimal(m) == Decimal(n)
    ensures m == n
  {
    var max := if m < n then n else m;
    DecimalRoundTrip(m, max);
    DecimalRoundTrip(n, max);
  }

  // ------------------------------------------------------------------
  // Hexadecimal
  // ------------------------------------------------------------------

  function HexDigit(n: nat): char
    requires n < 16
  {
    if n < 10 then ('0' as int + n) as char else ('a' as int + n - 10) as char
  }

  function HexValue(c: char): (r: Option<nat>)
    ensures r.Some? ==> r.value < 16
  {
    if '0' <= c <= '9' then Some(c as int - '0' as int)
    else if 'a' <= c <= 'f' then Some(c as int - 'a' as int + 10)
    else if 'A' <= c <= 'F' then Some(c as int - 'A' as int + 10)
    else None
  }

  function Hex(bytes: seq<byte>): (s: string)
    ensures |s| == 2 * |bytes|
  {
    if bytes == [] then "" else [HexDigit(bytes[0] / 16), HexDigit(bytes[0] % 16)] + Hex(bytes[1..])
  }

  function Unhex(s: string): (r: Option<seq<byte>>)
    ensures r.Some? ==> |s| == 2 * |r.value|
  {
    if s == "" then Some([])
    else if |s| == 1 then None
    else
      var hi, lo, rest := HexValue(s[0]), HexValue(s[1]), Unhex(s[2..]);
      if hi.None? || lo.None? || rest.None? then None
      else Some([hi.value * 16 + lo.value] + rest.value)
  }

  lemma HexDigitValue(n: nat, c: char)
    requires n < 16
    ensures HexValue(c) == Some(n) <==> LowerChar(c) == HexDigit(n)
  {
  }

  /** Reading hex accepts exactly the lower-case printing of the bytes, in any letter case. */
  lemma {:induction false} UnhexIff(s: string, bytes: seq<byte>)
    ensures Unhex(s) == Some(bytes) <==> Lower(s) == Hex(bytes)
  {
    if |s| != 2 * |bytes| {
    } else if bytes == [] {
    } else {
      var b := bytes[0];
      UnhexIff(s[2..], bytes[1..]);
      HexDigitValue(b / 16, s[0]);
      HexDigitValue(b % 16, s[1]);
      HexParts(s, bytes);
      UnhexParts(s, bytes);
    }
  }

  lemma HexParts(s: string, bytes: seq<byte>)
    requires bytes != [] && |s| == 2 * |bytes|
    ensures Lower(s) == Hex(bytes) <==>
        LowerChar(s[0]) == HexDigit(bytes[0] / 16) && LowerChar(s[1]) == HexDigit(bytes[0] % 16)
        && Lower(s[2..]) == Hex(bytes[1..])
  {
    PairEqual(Lower(s), Hex(bytes));
    assert Lower(s)[2..] == Lower(s[2..]);
    assert Hex(bytes)[2..] == Hex(bytes[1..]);
  }

  lemma PairEqual(x: string, y: string)
    requires |x| == |y| >= 2
    ensures x == y <==> x[0] == y[0] && x[1] == y[1] && x[2..] == y[2..]
  {
    if x[0] == y[0] && x[1] == y[1] && x[2..] == y[2..] {
      assert x == [x[0], x[1]] + x[2..] && y == [y[0], y[1]] + y[2..];
    }
  }

  lemma UnhexParts(s: string, bytes: seq<byte>)
    requires bytes != [] && |s| == 2 * |bytes|
    ensures Unhex(s) == Some(bytes) <==>
        HexValue(s[0]) == Some(bytes[0] / 16) && HexValue(s[1]) == Some(bytes[0] % 16) && Unhex(s[2..]) == Some(bytes[1..])
  {
    var b := bytes[0];
    assert bytes == [b] + bytes[1..];
    var r := Unhex(s);
    if r.Some? {
      var hi, lo, rest := HexValue(s[0]).value, HexValue(s[1]).value, Unhex(s[2..]).value;
      assert r.value == [hi * 16 + lo] + rest;
      assert r.value[0] == hi * 16 + lo && r.value[1..] == rest;
    }
  }

  lemma {:induction false} HexIsLower(bytes: seq<byte>)
    ensures Lower(Hex(bytes)) == Hex(bytes)
  {
    if bytes != [] {
      HexIsLower(bytes[1..]);
      HexParts(Hex(bytes), bytes);
      assert Hex(bytes)[2..] == Hex(bytes[1..]);
    }
  }

  lemma HexRoundTrip(bytes: seq<byte>)
    ensures Unhex(Hex(bytes)) == Some(bytes)
  {
    HexIsLower(bytes);
    UnhexIff(Hex(bytes), bytes);
  }
}
