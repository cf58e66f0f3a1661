/** hexlify and unhex over C buffers (firmware/main/auth.c), against the shared hexadecimal functions. */
module HexBuffers {
  import opened Bytes
  import opened Text

  /** Setting bit 5, which maps upper-case letters to lower-case ones. */
  function WithBit5(c: nat): nat {
    if c / 32 % 2 == 1 then c else c + 32
  }

  /** A C char is signed: bytes from 128 on are negative and no digit. */
  function CDigit(b: byte): int {
    var c: int := if b < 128 then b else b - 256;
    if '0' as int <= c <= '9' as int then c - '0' as int
    else if c >= 0 && 'a' as int <= WithBit5(c) <= 'f' as int then WithBit5(c) - 'a' as int + 10
    else -1
  }

  lemma CDigitIsHexValue(b: byte)
    ensures CDigit(b) == (if HexValue(b as char).None? then -1 else HexValue(b as char).value)
  {
  }

  function Chars(s: seq<byte>): (r: string)
    ensures |r| == |s| && forall i :: 0 <= i < |s| ==> r[i] == s[i] as char
  {
    seq(|s|, i requires 0 <= i < |s| => s[i] as char)
  }

  lemma {:induction false} HexSnoc(a: seq<byte>, b: byte)
    ensures Hex(a + [b]) == Hex(a) + [HexDigit(b / 16), HexDigit(b % 16)]
  {
    if a == [] {
      assert a + [b] == [b];
      assert Hex([b]) == [HexDigit(b / 16), HexDigit(b % 16)] + Hex([]);
    } else {
      TailOfConcat(a, [b]);
      HexSnoc(a[1..], b);
      Assoc([HexDigit(a[0] / 16), HexDigit(a[0] % 16)], Hex(a[1..]), [HexDigit(b / 16), HexDigit(b % 16)]);
    }
  }

  const DIGITS := "0123456789abcdef"

  lemma DigitsAreHex(n: nat)
    requires n < 16
    ensures DIGITS[n] == HexDigit(n)
  {
  }

  method Hexlify(bytes: array<byte>, out: array<char>)
    requires out.Length == 2 * bytes.Length + 1
    modifies out
    ensures out[..2 * bytes.Length] == Hex(bytes[..]) && out[2 * bytes.Length] == '\0'
  {
    var n := bytes.Length;
    var i := 0;
    while i < n
      invariant 0 <= i <= n
      invariant out[..2 * i] == Hex(bytes[..i])
    {
      DigitsAreHex(bytes[i] / 16);
      DigitsAreHex(bytes[i] % 16);
      ghost var done := out[..2 * i];
      out[2 * i] := DIGITS[bytes[i] / 16];
      out[2 * i + 1] := DIGITS[bytes[i] % 16];
      assert out[..2 * i + 2] == done + [out[2 * i], out[2 * i + 1]];
      TakeSnoc(bytes[..], i);
      assert bytes[..][..i] == bytes[..i] && bytes[..][..i + 1] == bytes[..i + 1];
      HexSnoc(bytes[..i], bytes[i]);
      i := i + 1;
    }
    out[2 * n] := '\0';
    assert bytes[..n] == bytes[..];
  }

  /** The first i bytes are what the first 2i characters spell. */
  lemma UnhexSnoc(s: seq<byte>, done: seq<byte>)
    requires 2 * |done| + 2 <= |s| && Unhex(Chars(s[..2 * |done|])) == Some(done)
    ensures
      var i := |done|;
      var h, l := HexValue(s[2 * i] as char), HexValue(s[2 * i + 1] as char);
      Unhex(Chars(s[..2 * i + 2])) == if h.None? || l.None? then None else Some(done + [h.value * 16 + l.value])
  {
    hide Unhex, HexValue;
    var i := |done|;
    UnhexConcat(Chars(s[..2 * i]), [s[2 * i] as char, s[2 * i + 1] as char]);
    assert Chars(s[..2 * i + 2]) == Chars(s[..2 * i]) + [s[2 * i] as char, s[2 * i + 1] as char];
    UnhexPair(s[2 * i] as char, s[2 * i + 1] as char);
  }

  lemma UnhexPair(a: char, b: char)
    ensures Unhex([a, b]) == if HexValue(a).None? || HexValue(b).None? then None
                             else Some([HexValue(a).value * 16 + HexValue(b).value])
  {
    assert [a, b][2..] == "";
    if HexValue(a).Some? && HexValue(b).Some? {
      assert [HexValue(a).value * 16 + HexValue(b).value] + [] == [HexValue(a).value * 16 + HexValue(b).value];
    }
  }

  lemma {:induction false} UnhexConcat(a: string, b: string)
    requires |a| % 2 == 0
    ensures Unhex(a + b) ==
            if Unhex(a).None? || Unhex(b).None? then None else Some(Unhex(a).value + Unhex(b).value)
    decreases |a|
  {
    if a == "" {
      assert a + b == b;
      if Unhex(b).Some? {
        assert [] + Unhex(b).value == Unhex(b).value;
      }
    } else {
      assert (a + b)[0] == a[0] && (a + b)[1] == a[1] && (a + b)[2..] == a[2..] + b;
      UnhexConcat(a[2..], b);
      if Unhex(a).Some? && Unhex(b).Some? {
        Assoc([HexValue(a[0]).value * 16 + HexValue(a[1]).value], Unhex(a[2..]).value, Unhex(b).value);
      }
    }
  }

  lemma UnhexNothing(s: seq<byte>)
    ensures Unhex(Chars(s[..0])) == Some([])
  {
  }

  /** Fills the buffer exactly when all the characters are digits, in either letter case. */
  method UnhexInto(s: array<byte>, out: array<byte>) returns (r: int)
    requires s.Length >= 2 * out.Length && s != out
    modifies out
    ensures r == 0 || r == -1
    ensures r == 0 <==> Unhex(Chars(s[..2 * out.Length])).Some?
    ensures r == 0 ==> Unhex(Chars(s[..2 * out.Length])) == Some(out[..])
  {
    hide CDigit, HexValue, Unhex, Chars;
    ghost var text := s[..];
    var n := out.Length;
    var i := 0;
    UnhexNothing(text);
    assert out[..0] == [];
    while i < n
      invariant 0 <= i <= n
      invariant Unhex(Chars(text[..2 * i])) == Some(out[..i])
    {
      UnhexSnoc(text, out[..i]);
      CDigitIsHexValue(s[2 * i]);
      CDigitIsHexValue(s[2 * i + 1]);
      var h, l := CDigit(s[2 * i]), CDigit(s[2 * i + 1]);
      if h < 0 || l < 0 {
        UnhexStops(text, i, n);
        assert s[..2 * n] == text[..2 * n];
        return -1;
      }
      ghost var done := out[..i];
      out[i] := h * 16 + l;
      assert out[..i + 1] == done + [out[i]];
      i := i + 1;
    }
    assert s[..2 * n] == text[..2 * n] && out[..n] == out[..];
    r := 0;
  }

  /** A bad pair spoils everything after it. */
  lemma UnhexStops(s: seq<byte>, i: nat, n: nat)
    requires i < n && 2 * n <= |s| && Unhex(Chars(s[..2 * i + 2])).None?
    ensures Unhex(Chars(s[..2 * n])).None?
  {
    assert Chars(s[..2 * n]) == Chars(s[..2 * i + 2]) + Chars(s[2 * i + 2..2 * n]);
    UnhexConcat(Chars(s[..2 * i + 2]), Chars(s[2 * i + 2..2 * n]));
  }
}
