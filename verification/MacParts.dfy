/** The pieces that each side feeds to its MAC (common/auth.zig, firmware/main/auth.c). The two are written apart from each
    other; both come to the same bytes for every message. */
module MacParts {
  import opened Bytes
  import opened Text
  import opened MacLayout

  /** The update loop of hmac and hmac_parts: the MAC is over the pieces one after the other. */
  method FeedParts(parts: seq<seq<byte>>) returns (fed: seq<byte>)
    ensures fed == Flatten(parts)
  {
    hide Flatten;
    fed := [];
    var i := 0;
    FlattenNothing<byte>();
    assert parts[..0] == [];
    while i < |parts|
      invariant 0 <= i <= |parts| && fed == Flatten(parts[..i])
    {
      TakeSnoc(parts, i);
      FlattenSnoc(parts[..i], parts[i]);
      fed := fed + parts[i];
      i := i + 1;
    }
    JoinSlices(parts, 0, i, i);
  }

  lemma AnnounceIsLatin(m: Message)
    requires m.Announce? && WellFormed(m)
    ensures Latin(m.bdaddr) && Latin(Decimal(m.port)) && Latin(IpText(m.ip))
  {
    DecimalClean(m.port);
    IpDotted(m.ip);
    hide Decimal, IpText;
  }

  /** The host's pieces. */
  function HostParts(m: Message): seq<seq<byte>>
    requires WellFormed(m)
  {
    match m
    case ClientProof(sn, cn) => [sn, cn, Ascii("esp-hci-client")]
    case BoardProof(cn, sn) => [cn, sn, Ascii("esp-hci-board")]
    case Announce(bdaddr, port, name, ip) =>
      AnnounceIsLatin(m);
      [Ascii(bdaddr), Ascii("\t"), Ascii(Decimal(port)), Ascii("\t"), Ascii(name), Ascii("\t"), Ascii(IpText(ip))]
    case Auth(path, nonce, digest) => [Ascii("POST"), Ascii(" "), Ascii(PathText(path)), Ascii("\n"), nonce, digest]
    case Pre(path, nonce, len) =>
      [Ascii("PRE "), Ascii("POST"), Ascii(" "), Ascii(PathText(path)), Ascii("\n"), nonce, Be32(len)]
  }

  /** The C strings of the three paths. */
  function PathBytes(p: Path): seq<byte> {
    match p
    case Ota => [0x2f, 0x6f, 0x74, 0x61]
    case Reboot => [0x2f, 0x72, 0x65, 0x62, 0x6f, 0x6f, 0x74]
    case Unclaim => [0x2f, 0x75, 0x6e, 0x63, 0x6c, 0x61, 0x69, 0x6d]
  }

  const POST: seq<byte> := [0x50, 0x4f, 0x53, 0x54]

  /** The firmware's pieces, with its own byte order for the length. */
  function FirmwareParts(m: Message): seq<seq<byte>>
    requires WellFormed(m)
  {
    match m
    case ClientProof(sn, cn) =>
      [sn, cn, [0x65, 0x73, 0x70, 0x2d, 0x68, 0x63, 0x69, 0x2d, 0x63, 0x6c, 0x69, 0x65, 0x6e, 0x74]]
    case BoardProof(cn, sn) => [cn, sn, [0x65, 0x73, 0x70, 0x2d, 0x68, 0x63, 0x69, 0x2d, 0x62, 0x6f, 0x61, 0x72, 0x64]]
    case Announce(bdaddr, port, name, ip) =>
      AnnounceIsLatin(m);
      [Ascii(bdaddr), [0x09], Ascii(Decimal(port)), [0x09], Ascii(name), [0x09], Ascii(IpText(ip))]
    case Auth(path, nonce, digest) => [POST, [0x20], PathBytes(path), [0x0a], nonce, digest]
    case Pre(path, nonce, len) =>
      [[0x50, 0x52, 0x45, 0x20], POST, [0x20], PathBytes(path), [0x0a], nonce,
       [len / 0x100_0000 % 256, len / 0x1_0000 % 256, len / 0x100 % 256, len % 256]]
  }

  lemma WordsAgree(p: Path)
    ensures Ascii("POST") == POST && Ascii(" ") == [0x20] && Ascii("\n") == [0x0a] && Ascii("\t") == [0x09]
    ensures Ascii("PRE ") == [0x50, 0x52, 0x45, 0x20] && Ascii(PathText(p)) == PathBytes(p)
  {
  }

  lemma DomainsAgree()
    ensures Ascii("esp-hci-client") == [0x65, 0x73, 0x70, 0x2d, 0x68, 0x63, 0x69, 0x2d, 0x63, 0x6c, 0x69, 0x65, 0x6e, 0x74]
    ensures Ascii("esp-hci-board") == [0x65, 0x73, 0x70, 0x2d, 0x68, 0x63, 0x69, 0x2d, 0x62, 0x6f, 0x61, 0x72, 0x64]
  {
  }

  lemma ShiftsAgree(n: nat)
    requires n < 0x1_0000_0000
    ensures Be32(n) == [n / 0x100_0000 % 256, n / 0x1_0000 % 256, n / 0x100 % 256, n % 256]
  {
    assert n / 256 / 256 == n / 0x1_0000 && n / 256 / 256 / 256 == n / 0x100_0000;
    assert n / 0x100_0000 < 256;
  }

  /** Host and firmware feed the same pieces. */
  lemma PartsAgree(m: Message)
    requires WellFormed(m)
    ensures HostParts(m) == FirmwareParts(m)
  {
    hide Ascii, Be32, Decimal, IpText, PathText, PathBytes;
    DomainsAgree();
    match m
    case ClientProof(_, _) =>
    case BoardProof(_, _) =>
    case Announce(_, _, _, _) => WordsAgree(Ota);
    case Auth(path, _, _) => WordsAgree(path);
    case Pre(path, _, len) =>
      WordsAgree(path);
      ShiftsAgree(len);
  }

  lemma AsciiConcat(a: string, b: string)
    requires Latin(a) && Latin(b)
    ensures Latin(a + b) && Ascii(a + b) == Ascii(a) + Ascii(b)
  {
  }

  lemma Flatten3(a: seq<byte>, b: seq<byte>, c: seq<byte>)
    ensures Flatten([a, b, c]) == a + b + c
  {
    assert Flatten([b, c]) == b + Flatten([c]) && Flatten([c]) == c + Flatten<byte>([]);
    assert [a, b, c][1..] == [b, c] && [b, c][1..] == [c] && [c][1..] == [];
  }

  lemma FlattenHead(a: seq<byte>, rest: seq<seq<byte>>)
    ensures Flatten([a] + rest) == a + Flatten(rest)
  {
    assert ([a] + rest)[1..] == rest;
  }

  lemma Ascii4(a: string, b: string, c: string, d: string)
    requires Latin(a) && Latin(b) && Latin(c) && Latin(d)
    ensures Latin(a + b + c + d) && Ascii(a) + Ascii(b) + Ascii(c) + Ascii(d) == Ascii(a + b + c + d)
  {
    hide Ascii, Latin;
    AsciiConcat(a, b);
    AsciiConcat(a + b, c);
    AsciiConcat(a + b + c, d);
  }

  lemma HeadText(p: string)
    ensures "POST" + " " + p + "\n" == "POST " + p + "\n"
    ensures "PRE " + ("POST " + p + "\n") == "PRE POST " + p + "\n"
  {
  }

  lemma WordsAreLatin(p: Path)
    ensures Latin("POST") && Latin(" ") && Latin("\n") && Latin("PRE ") && Latin("\t") && Latin(PathText(p))
  {
  }

  /** The head of an Auth message, piece by piece. */
  lemma HeadParts(path: Path)
    ensures Latin("POST") && Latin(" ") && Latin("\n") && Latin("PRE ") && Latin(PathText(path))
    ensures Latin(AuthHead(path)) && Latin(PreHead(path))
    ensures Ascii("POST") + Ascii(" ") + Ascii(PathText(path)) + Ascii("\n") == Ascii(AuthHead(path))
    ensures Ascii("PRE ") + Ascii(AuthHead(path)) == Ascii(PreHead(path))
  {
    WordsAreLatin(path);
    hide Ascii, Latin, PathText;
    HeadText(PathText(path));
    Ascii4("POST", " ", PathText(path), "\n");
    AsciiConcat("PRE ", AuthHead(path));
  }

  lemma Flatten4Then(a: seq<byte>, b: seq<byte>, c: seq<byte>, d: seq<byte>, rest: seq<seq<byte>>)
    ensures Flatten([a, b, c, d] + rest) == a + b + c + d + Flatten(rest)
  {
    hide Flatten;
    FlattenConcat([a, b, c, d], rest);
    Flatten3(a, b, c);
    assert [a, b, c, d] == [a, b, c] + [d];
    FlattenSnoc([a, b, c], d);
  }

  lemma TabJoin(a: string, b: string)
    requires Latin(a) && Latin(b)
    ensures Latin("\t") && Latin(a + ['\t'] + b) && Ascii(a + ['\t'] + b) == Ascii(a) + Ascii("\t") + Ascii(b)
  {
    WordsAreLatin(Ota);
    hide Ascii, Latin;
    AsciiConcat(a, "\t");
    AsciiConcat(a + "\t", b);
  }

  lemma FlattenPair(a: seq<byte>, t: seq<byte>, rest: seq<seq<byte>>)
    ensures Flatten([a, t] + rest) == a + t + Flatten(rest)
  {
    hide Flatten;
    FlattenConcat([a, t], rest);
    Flatten2(a, t);
  }

  lemma Flatten7(a: seq<byte>, b: seq<byte>, c: seq<byte>, d: seq<byte>, t: seq<byte>)
    ensures Flatten([a, t, b, t, c, t, d]) == a + t + (b + t + (c + t + d))
  {
    hide Flatten;
    Flatten3(c, t, d);
    FlattenPair(b, t, [c, t, d]);
    FlattenPair(a, t, [b, t] + [c, t, d]);
    assert [a, t] + ([b, t] + [c, t, d]) == [a, t, b, t, c, t, d];
  }

  lemma AnnounceParts(bdaddr: string, port: string, name: string, ip: string)
    requires Latin(bdaddr) && Latin(port) && Latin(name) && Latin(ip)
    ensures
      var text := bdaddr + ['\t'] + (port + ['\t'] + (name + ['\t'] + ip));
      && Latin(text) && Latin("\t")
      && Flatten([Ascii(bdaddr), Ascii("\t"), Ascii(port), Ascii("\t"), Ascii(name), Ascii("\t"), Ascii(ip)]) == Ascii(text)
  {
    hide Ascii, Flatten, Latin;
    TabJoin(name, ip);
    TabJoin(port, name + ['\t'] + ip);
    TabJoin(bdaddr, port + ['\t'] + (name + ['\t'] + ip));
    Flatten7(Ascii(bdaddr), Ascii(port), Ascii(name), Ascii(ip), Ascii("\t"));
  }

  /** And they are the bytes that the rest of the model reasons about. */
  lemma LayoutIsParts(m: Message)
    requires WellFormed(m)
    ensures Flatten(HostParts(m)) == Layout(m)
  {
    match m
    case ClientProof(sn, cn) => Flatten3(sn, cn, Ascii("esp-hci-client"));
    case BoardProof(cn, sn) => Flatten3(cn, sn, Ascii("esp-hci-board"));
    case Announce(bdaddr, port, name, ip) =>
      AnnounceIsLatin(m);
      AnnounceParts(bdaddr, Decimal(port), name, IpText(ip));
      JoinFour(bdaddr, Decimal(port), name, IpText(ip), '\t');
    case Auth(path, nonce, digest) => AuthParts(path, nonce, digest);
    case Pre(path, nonce, len) => PreParts(path, nonce, Be32(len));
  }

  lemma AuthParts(path: Path, nonce: seq<byte>, digest: seq<byte>)
    ensures Flatten([Ascii("POST"), Ascii(" "), Ascii(PathText(path)), Ascii("\n"), nonce, digest]) ==
            Ascii(AuthHead(path)) + nonce + digest
  {
    HeadParts(path);
    hide Ascii, Flatten, PathText, AuthHead;
    var a, b, c, d := Ascii("POST"), Ascii(" "), Ascii(PathText(path)), Ascii("\n");
    Flatten4Then(a, b, c, d, [nonce, digest]);
    Flatten2(nonce, digest);
    assert [a, b, c, d] + [nonce, digest] == [a, b, c, d, nonce, digest];
    Assoc(Ascii(AuthHead(path)), nonce, digest);
  }

  lemma Flatten2(a: seq<byte>, b: seq<byte>)
    ensures Flatten([a, b]) == a + b
  {
    assert [a, b][1..] == [b] && [b][1..] == [];
    assert Flatten([b]) == b + Flatten<byte>([]);
  }

  lemma PreParts(path: Path, nonce: seq<byte>, len: seq<byte>)
    ensures Flatten([Ascii("PRE "), Ascii("POST"), Ascii(" "), Ascii(PathText(path)), Ascii("\n"), nonce, len]) ==
            Ascii(PreHead(path)) + nonce + len
  {
    HeadParts(path);
    AuthParts(path, nonce, len);
    hide Ascii, Flatten, PathText, AuthHead, PreHead;
    var pre := Ascii("PRE ");
    var rest := [Ascii("POST"), Ascii(" "), Ascii(PathText(path)), Ascii("\n"), nonce, len];
    FlattenHead(pre, rest);
    assert [pre] + rest == [pre, Ascii("POST"), Ascii(" "), Ascii(PathText(path)), Ascii("\n"), nonce, len];
    Assoc(pre, Ascii(AuthHead(path)) + nonce, len);
    Assoc(pre, Ascii(AuthHead(path)), nonce);
  }
}
