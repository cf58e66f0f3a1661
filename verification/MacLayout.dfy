/** The byte strings MACed under a board key (common/auth.zig, firmware/main/auth.c):
    handshake proofs, announces, and the two HTTP proofs. No two messages share a byte string. */
module MacLayout {
  import opened Bytes
  import opened Text

  const NONCE_LEN: nat := 32
  const HTTP_NONCE_LEN: nat := 20
  const DIGEST_LEN: nat := 32

  /** The paths the firmware accepts proofs for; the method is always POST. */
  datatype Path = Ota | Reboot | Unclaim

  datatype Message =
    | ClientProof(sn: seq<byte>, cn: seq<byte>)
    | BoardProof(cn: seq<byte>, sn: seq<byte>)
    | Announce(bdaddr: string, port: nat, name: string, ip: (byte, byte, byte, byte))
    | Auth(path: Path, nonce: seq<byte>, digest: seq<byte>)
    | Pre(path: Path, nonce: seq<byte>, len: nat)

  predicate IsLowerHex(c: char) {
    IsDigit(c) || 'a' <= c <= 'f'
  }

  /** "aa:bb:cc:dd:ee:ff" as the firmware prints it. */
  predicate ColonHex(s: string) {
    |s| == 17 && forall i :: 0 <= i < 17 ==> if i % 3 == 2 then s[i] == ':' else IsLowerHex(s[i])
  }

  predicate Latin(s: string) {
    forall i :: 0 <= i < |s| ==> (s[i] as int) < 256
  }

  predicate WellFormed(m: Message) {
    match m
    case ClientProof(sn, cn) => |sn| == NONCE_LEN && |cn| == NONCE_LEN
    case BoardProof(cn, sn) => |sn| == NONCE_LEN && |cn| == NONCE_LEN
    case Announce(bdaddr, port, name, _) =>
      ColonHex(bdaddr) && port < 0x1_0000 && Latin(name) && Free(name, '\t')
    case Auth(_, nonce, digest) => |nonce| == HTTP_NONCE_LEN && |digest| == DIGEST_LEN
    case Pre(_, nonce, len) => |nonce| == HTTP_NONCE_LEN && len < 0x1_0000_0000
  }

  function Ascii(s: string): (r: seq<byte>)
    requires Latin(s)
    ensures |r| == |s| && forall i :: 0 <= i < |s| ==> r[i] == s[i] as int
  {
    seq(|s|, i requires 0 <= i < |s| => s[i] as int)
  }

  lemma AsciiInjective(a: string, b: string)
    requires Latin(a) && Latin(b) && Ascii(a) == Ascii(b)
    ensures a == b
  {
    assert forall i :: 0 <= i < |a| ==> Ascii(a)[i] == Ascii(b)[i];
  }

  /** A 32-bit number, most significant byte first. */
  function Be32(n: nat): (r: seq<byte>)
    requires n < 0x1_0000_0000
    ensures |r| == 4
  {
    [n / 256 / 256 / 256, n / 256 / 256 % 256, n / 256 % 256, n % 256]
  }

  lemma Be32Value(n: nat)
    requires n < 0x1_0000_0000
    ensures n == ((Be32(n)[0] as int * 256 + Be32(n)[1]) * 256 + Be32(n)[2]) * 256 + Be32(n)[3]
  {
    var a := n / 256;
    var b := a / 256;
    assert n == a * 256 + n % 256 && a == b * 256 + a % 256 && b == b / 256 * 256 + b % 256;
  }

  lemma Be32Injective(m: nat, n: nat)
    requires m < 0x1_0000_0000 && n < 0x1_0000_0000 && Be32(m) == Be32(n)
    ensures m == n
  {
    Be32Value(m);
    Be32Value(n);
  }

  function PathText(p: Path): string {
    match p
    case Ota => "/ota"
    case Reboot => "/reboot"
    case Unclaim => "/unclaim"
  }

  function IpText(ip: (byte, byte, byte, byte)): string {
    Join([Decimal(ip.0), Decimal(ip.1), Decimal(ip.2), Decimal(ip.3)], '.')
  }

  function AnnounceText(bdaddr: string, port: nat, name: string, ip: (byte, byte, byte, byte)): string {
    Join([bdaddr, Decimal(port), name, IpText(ip)], '\t')
  }

  function AuthHead(p: Path): string {
    "POST " + PathText(p) + "\n"
  }

  function PreHead(p: Path): string {
    "PRE POST " + PathText(p) + "\n"
  }

  lemma DecimalClean(n: nat)
    ensures Latin(Decimal(n)) && Free(Decimal(n), '.') && Free(Decimal(n), '\t')
  {
    var s := Decimal(n);
    assert forall i :: 0 <= i < |s| ==> IsDigit(s[i]);
  }

  predicate Dotted(s: string) {
    s != "" && IsDigit(s[|s| - 1]) && forall i :: 0 <= i < |s| ==> IsDigit(s[i]) || s[i] == '.'
  }

  lemma DottedJoin(a: string, b: string)
    requires Dotted(a) && Dotted(b)
    ensures Dotted(a + ['.'] + b)
  {
  }

  lemma IpDotted(ip: (byte, byte, byte, byte))
    ensures Dotted(IpText(ip))
    ensures IpText(ip) == Decimal(ip.0) + ['.'] + (Decimal(ip.1) + ['.'] + (Decimal(ip.2) + ['.'] + Decimal(ip.3)))
  {
    var a, b, c, d := Decimal(ip.0), Decimal(ip.1), Decimal(ip.2), Decimal(ip.3);
    JoinFour(a, b, c, d, '.');
    DottedJoin(c, d);
    DottedJoin(b, c + ['.'] + d);
    DottedJoin(a, b + ['.'] + (c + ['.'] + d));
  }

  lemma JoinFour(a: string, b: string, c: string, d: string, sep: char)
    ensures Join([a, b, c, d], sep) == a + [sep] + (b + [sep] + (c + [sep] + d))
  {
    assert [a, b, c, d][1..] == [b, c, d] && [b, c, d][1..] == [c, d] && [c, d][1..] == [d];
    assert Join([d], sep) == d && Join([c, d], sep) == c + [sep] + d;
  }

  lemma IpInjective(x: (byte, byte, byte, byte), y: (byte, byte, byte, byte))
    requires IpText(x) == IpText(y)
    ensures x == y
  {
    hide Decimal, Join;
    var xs := [Decimal(x.0), Decimal(x.1), Decimal(x.2), Decimal(x.3)];
    var ys := [Decimal(y.0), Decimal(y.1), Decimal(y.2), Decimal(y.3)];
    DecimalClean(x.0); DecimalClean(x.1); DecimalClean(x.2); DecimalClean(x.3);
    DecimalClean(y.0); DecimalClean(y.1); DecimalClean(y.2); DecimalClean(y.3);
    SplitJoin(xs, '.');
    SplitJoin(ys, '.');
    assert xs[0] == ys[0] && xs[1] == ys[1] && xs[2] == ys[2] && xs[3] == ys[3];
    DecimalInjective(x.0, y.0);
    DecimalInjective(x.1, y.1);
    DecimalInjective(x.2, y.2);
    DecimalInjective(x.3, y.3);
  }

  /** An announce is text without surprises: it starts like an address and ends in a digit. */
  lemma AnnounceShape(bdaddr: string, port: nat, name: string, ip: (byte, byte, byte, byte))
    requires WellFormed(Announce(bdaddr, port, name, ip))
    ensures
      var t := AnnounceText(bdaddr, port, name, ip);
      Latin(t) && t != "" && IsLowerHex(t[0]) && IsDigit(t[|t| - 1])
  {
    hide Decimal, Join, IpText;
    IpDotted(ip);
    DecimalClean(port);
    JoinFour(bdaddr, Decimal(port), name, IpText(ip), '\t');
    var t := AnnounceText(bdaddr, port, name, ip);
    assert t == bdaddr + ['\t'] + (Decimal(port) + ['\t'] + (name + ['\t'] + IpText(ip)));
    assert t[|t| - 1] == IpText(ip)[|IpText(ip)| - 1];
    assert t[0] == bdaddr[0];
  }

  /** The signed text determines its fields, for any address and name without a tab. */
  lemma AnnounceInjective(a: Message, b: Message)
    requires a.Announce? && b.Announce?
    requires Free(a.bdaddr, '\t') && Free(a.name, '\t') && Free(b.bdaddr, '\t') && Free(b.name, '\t')
    requires AnnounceText(a.bdaddr, a.port, a.name, a.ip) == AnnounceText(b.bdaddr, b.port, b.name, b.ip)
    ensures a == b
  {
    hide Decimal, Join, IpText;
    var xs := [a.bdaddr, Decimal(a.port), a.name, IpText(a.ip)];
    var ys := [b.bdaddr, Decimal(b.port), b.name, IpText(b.ip)];
    DecimalClean(a.port);
    DecimalClean(b.port);
    IpDotted(a.ip);
    IpDotted(b.ip);
    SplitJoin(xs, '\t');
    SplitJoin(ys, '\t');
    assert xs[0] == ys[0] && xs[1] == ys[1] && xs[2] == ys[2] && xs[3] == ys[3];
    DecimalInjective(a.port, b.port);
    IpInjective(a.ip, b.ip);
  }

  lemma ColonHexFree(s: string)
    requires ColonHex(s)
    ensures Free(s, '\t')
  {
  }

  /** The bytes that are MACed. */
  function Layout(m: Message): seq<byte>
    requires WellFormed(m)
  {
    match m
    case ClientProof(sn, cn) => sn + cn + Ascii("esp-hci-client")
    case BoardProof(cn, sn) => cn + sn + Ascii("esp-hci-board")
    case Announce(bdaddr, port, name, ip) =>
      AnnounceShape(bdaddr, port, name, ip);
      Ascii(AnnounceText(bdaddr, port, name, ip))
    case Auth(path, nonce, digest) => Ascii(AuthHead(path)) + nonce + digest
    case Pre(path, nonce, len) => Ascii(PreHead(path)) + nonce + Be32(len)
  }

  /** Three parts of known length can be told apart. */
  lemma ThreeParts(a: seq<byte>, b: seq<byte>, c: seq<byte>, a': seq<byte>, b': seq<byte>, c': seq<byte>)
    requires a + b + c == a' + b' + c' && |a| == |a'| && |b| == |b'|
    ensures a == a' && b == b' && c == c'
  {
    var s, t := a + b + c, a' + b' + c';
    assert a == s[..|a|] && a' == t[..|a|];
    assert b == s[|a|..|a| + |b|] && b' == t[|a|..|a| + |b|];
    assert c == s[|a| + |b|..] && c' == t[|a| + |b|..];
  }

  /** What can be seen of a message from outside: its length, first and last byte. */
  lemma Outside(m: Message)
    requires WellFormed(m)
    ensures
      var s := Layout(m);
      match m
      case ClientProof(_, _) => |s| == 78 && s[77] == 't' as int
      case BoardProof(_, _) => |s| == 77 && s[76] == 'd' as int
      case Announce(_, _, _, _) => s != [] && s[0] != 'P' as int && s[|s| - 1] <= '9' as int
      case Auth(p, _, _) => |s| == 58 + |PathText(p)| && s[0] == 'P' as int
      case Pre(p, _, _) => |s| == 34 + |PathText(p)| && s[0] == 'P' as int
  {
    match m
    case Announce(bdaddr, port, name, ip) =>
      hide AnnounceText;
      AnnounceShape(bdaddr, port, name, ip);
    case ClientProof(_, _) => assert Ascii("esp-hci-client")[13] == 't' as int;
    case BoardProof(_, _) => assert Ascii("esp-hci-board")[12] == 'd' as int;
    case Auth(p, _, _) => assert Ascii(AuthHead(p))[0] == 'P' as int;
    case Pre(p, _, _) => assert Ascii(PreHead(p))[0] == 'P' as int;
  }

  lemma SameKind(a: Message, b: Message)
    requires WellFormed(a) && WellFormed(b) && Layout(a) == Layout(b)
    ensures (a.ClientProof? <==> b.ClientProof?) && (a.BoardProof? <==> b.BoardProof?)
    ensures (a.Announce? <==> b.Announce?) && (a.Auth? <==> b.Auth?) && (a.Pre? <==> b.Pre?)
    ensures a.Auth? || a.Pre? ==> a.path == b.path
  {
    hide Layout, WellFormed;
    Outside(a);
    Outside(b);
  }

  /** All messages MACed under one board key are encoded injectively and kept apart from each other. */
  lemma LayoutInjective(a: Message, b: Message)
    requires WellFormed(a) && WellFormed(b) && Layout(a) == Layout(b)
    ensures a == b
  {
    SameKind(a, b);
    hide AnnounceText;
    match a
    case ClientProof(sn, cn) =>
      ThreeParts(sn, cn, Ascii("esp-hci-client"), b.sn, b.cn, Ascii("esp-hci-client"));
    case BoardProof(cn, sn) =>
      ThreeParts(cn, sn, Ascii("esp-hci-board"), b.cn, b.sn, Ascii("esp-hci-board"));
    case Announce(bdaddr, port, name, ip) =>
      AnnounceShape(bdaddr, port, name, ip);
      AnnounceShape(b.bdaddr, b.port, b.name, b.ip);
      AsciiInjective(AnnounceText(bdaddr, port, name, ip), AnnounceText(b.bdaddr, b.port, b.name, b.ip));
      ColonHexFree(a.bdaddr);
      ColonHexFree(b.bdaddr);
      AnnounceInjective(a, b);
    case Auth(path, nonce, digest) =>
      ThreeParts(Ascii(AuthHead(path)), nonce, digest, Ascii(AuthHead(path)), b.nonce, b.digest);
    case Pre(path, nonce, len) =>
      ThreeParts(Ascii(PreHead(path)), nonce, Be32(len), Ascii(PreHead(path)), b.nonce, Be32(b.len));
      Be32Injective(len, b.len);
  }
}
