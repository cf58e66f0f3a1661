/** The discovery datagrams (common/discovery.zig, firmware/main/glue.c). */
module Discovery {
  import opened Bytes
  import opened Text

  const MAGIC := "ESPHCI1"

  datatype Message = Probe | Announce(bdaddr: string, port: nat, name: string, sig: string)

  datatype Error = BadMagic | BadFormat | UnknownKind | NoSpace

  const U16_MAX := 0xffff

  function AnnounceFields(bdaddr: string, port: nat, name: string, sig: string): seq<string> {
    [MAGIC, "ANNOUNCE", bdaddr, Decimal(port), name, sig]
  }

  function AnnounceText(bdaddr: string, port: nat, name: string, sig: string): string {
    Join(AnnounceFields(bdaddr, port, name, sig), '\t') + "\n"
  }

  /** buildAnnounce into a buffer of the given size. */
  function BuildAnnounce(room: nat, bdaddr: string, port: nat, name: string, sig: string): Result<string, Error> {
    var text := AnnounceText(bdaddr, port, name, sig);
    if |text| > room then Err(NoSpace) else Ok(text)
  }

  /** One line end at the end is dropped. */
  function Chop(data: string): string {
    if data != "" && data[|data| - 1] == '\n' then data[..|data| - 1] else data
  }

  function ParseFields(parts: seq<string>): Result<Message, Error>
    requires parts != []
  {
    if parts[0] != MAGIC then Err(BadMagic)
    else if |parts| < 2 then Err(BadFormat)
    else if parts[1] == "PROBE" then Ok(Probe)
    else if parts[1] != "ANNOUNCE" then Err(UnknownKind)
    else if |parts| < 5 then Err(BadFormat)
    else
      var sig := if |parts| > 5 then parts[5] else "-";
      if |parts| > 6 then Err(BadFormat)
      else if |parts[2]| != 17 then Err(BadFormat)
      else
        var port := ParseInt(parts[3], U16_MAX);
        if port.None? then Err(BadFormat)
        else if parts[4] == "" then Err(BadFormat)
        else Ok(Announce(parts[2], port.value, parts[4], sig))
  }

  function Parse(data: string): Result<Message, Error> {
    ParseFields(Split(Chop(data), '\t'))
  }

  // ------------------------------------------------------------------
  // Round trip
  // ------------------------------------------------------------------

  /** The announces that a datagram can carry. */
  predicate Carried(bdaddr: string, name: string, sig: string) {
    |bdaddr| == 17 && name != "" && Free(bdaddr, '\t') && Free(name, '\t') && Free(sig, '\t')
  }

  lemma ConstantsFree(port: nat)
    ensures Free(MAGIC, '\t') && Free("ANNOUNCE", '\t') && Free(Decimal(port), '\t')
  {
  }

  lemma ParseKeepsTabsOut(data: string)
    requires Parse(data).Ok? && Parse(data).value.Announce?
    ensures var m := Parse(data).value; Carried(m.bdaddr, m.name, m.sig)
  {
    hide ParseInt;
    SplitPieces(Chop(data), '\t');
    var parts := Split(Chop(data), '\t');
    assert Free(parts[2], '\t') && Free(parts[4], '\t');
    assert |parts| > 5 ==> Free(parts[5], '\t');
  }

  /** An announce comes back as it was built exactly when it can be carried. */
  lemma AnnounceRoundTripIff(bdaddr: string, port: nat, name: string, sig: string)
    requires port <= U16_MAX
    ensures Parse(AnnounceText(bdaddr, port, name, sig)) == Ok(Announce(bdaddr, port, name, sig)) <==>
            Carried(bdaddr, name, sig)
  {
    hide ParseInt, Split, Join;
    var text := AnnounceText(bdaddr, port, name, sig);
    if Carried(bdaddr, name, sig) {
      var fields := AnnounceFields(bdaddr, port, name, sig);
      ConstantsFree(port);
      assert Chop(text) == Join(fields, '\t');
      SplitJoin(fields, '\t');
      DecimalRoundTrip(port, U16_MAX);
    } else if Parse(text) == Ok(Announce(bdaddr, port, name, sig)) {
      ParseKeepsTabsOut(text);
    }
  }

  lemma JoinSix(a: string, b: string, c: string, d: string, e: string, f: string)
    ensures |Join([a, b, c, d, e, f], '\t')| == |a| + |b| + |c| + |d| + |e| + |f| + 5
  {
    assert [a, b, c, d, e, f][1..] == [b, c, d, e, f];
    assert [b, c, d, e, f][1..] == [c, d, e, f];
    assert [c, d, e, f][1..] == [d, e, f];
    assert [d, e, f][1..] == [e, f];
    assert [e, f][1..] == [f];
    assert |Join([e, f], '\t')| == |e| + |f| + 1;
    assert |Join([c, d, e, f], '\t')| == |c| + |d| + |e| + |f| + 3;
  }

  /** Building fails exactly when the line is longer than the buffer; otherwise nothing is cut off. */
  lemma BuildAnnounceIff(room: nat, bdaddr: string, port: nat, name: string, sig: string)
    ensures BuildAnnounce(room, bdaddr, port, name, sig) == Err(NoSpace) <==>
            room < 21 + |bdaddr| + |Decimal(port)| + |name| + |sig|
    ensures BuildAnnounce(room, bdaddr, port, name, sig).Ok? && port <= U16_MAX && Carried(bdaddr, name, sig) ==>
            Parse(BuildAnnounce(room, bdaddr, port, name, sig).value) == Ok(Announce(bdaddr, port, name, sig))
  {
    hide Parse, Join;
    JoinSix(MAGIC, "ANNOUNCE", bdaddr, Decimal(port), name, sig);
    if port <= U16_MAX {
      AnnounceRoundTripIff(bdaddr, port, name, sig);
    }
  }

  // ------------------------------------------------------------------
  // The grammar
  // ------------------------------------------------------------------

  /** A line of five or six fields that spells this announce; without a signature field it is "-". */
  predicate Spells(line: string, portText: string, m: Message)
    requires m.Announce?
  {
    || line == Join([MAGIC, "ANNOUNCE", m.bdaddr, portText, m.name, m.sig], '\t')
    || (m.sig == "-" && line == Join([MAGIC, "ANNOUNCE", m.bdaddr, portText, m.name], '\t'))
  }

  ghost predicate InGrammar(data: string, m: Message)
    requires m.Announce?
  {
    && Carried(m.bdaddr, m.name, m.sig)
    && exists portText :: Free(portText, '\t') && ParseInt(portText, U16_MAX) == Some(m.port) && Spells(Chop(data), portText, m)
  }

  lemma SixFields(parts: seq<string>)
    requires |parts| == 6
    ensures parts == [parts[0], parts[1], parts[2], parts[3], parts[4], parts[5]]
  {
  }

  lemma FiveFields(parts: seq<string>)
    requires |parts| == 5
    ensures parts == [parts[0], parts[1], parts[2], parts[3], parts[4]]
  {
  }

  /** The parser accepts exactly the announces of the grammar. */
  lemma ParseIffGrammar(data: string, m: Message)
    requires m.Announce?
    ensures Parse(data) == Ok(m) <==> InGrammar(data, m)
  {
    hide ParseInt, Split, Join;
    var line := Chop(data);
    if Parse(data) == Ok(m) {
      var parts := Split(line, '\t');
      SplitPieces(line, '\t');
      ParseKeepsTabsOut(data);
      JoinSplit(line, '\t');
      if |parts| == 6 {
        SixFields(parts);
      } else {
        FiveFields(parts);
      }
      assert Free(parts[3], '\t') && Spells(line, parts[3], m);
    }
    if InGrammar(data, m) {
      var portText :| Free(portText, '\t') && ParseInt(portText, U16_MAX) == Some(m.port) && Spells(line, portText, m);
      GrammarParses(line, portText, m);
    }
  }

  lemma GrammarParses(line: string, portText: string, m: Message)
    requires m.Announce? && Carried(m.bdaddr, m.name, m.sig)
    requires Free(portText, '\t') && ParseInt(portText, U16_MAX) == Some(m.port) && Spells(line, portText, m)
    ensures ParseFields(Split(line, '\t')) == Ok(m)
  {
    hide ParseInt, Split, Join;
    ConstantsFree(0);
    var six := [MAGIC, "ANNOUNCE", m.bdaddr, portText, m.name, m.sig];
    var five := [MAGIC, "ANNOUNCE", m.bdaddr, portText, m.name];
    if line == Join(six, '\t') {
      SplitJoin(six, '\t');
    } else {
      SplitJoin(five, '\t');
    }
  }

  /** The line is this field alone, or starts with this field and a tab. */
  predicate StartsWith(line: string, field: string) {
    line == field || field + "\t" <= line
  }

  lemma FirstFieldIs(line: string, field: string)
    requires Free(field, '\t')
    ensures Split(line, '\t')[0] == field <==> StartsWith(line, field)
    ensures field + "\t" <= line ==> Split(line, '\t') == [field] + Split(line[|field| + 1..], '\t')
    ensures line == field ==> Split(line, '\t') == [field]
  {
    var parts := Split(line, '\t');
    JoinSplit(line, '\t');
    if line == field {
      SplitFree(field, '\t');
    }
    if field + "\t" <= line {
      var rest := line[|field| + 1..];
      assert line == field + ['\t'] + rest;
      SplitHead(field, rest, '\t');
    }
    if parts[0] == field && |parts| > 1 {
      assert line == field + ['\t'] + Join(parts[1..], '\t');
    }
  }

  lemma VerdictOfFields(parts: seq<string>)
    requires parts != []
    ensures ParseFields(parts) == Err(BadMagic) <==> parts[0] != MAGIC
    ensures ParseFields(parts) == Ok(Probe) <==> parts[0] == MAGIC && |parts| > 1 && parts[1] == "PROBE"
    ensures ParseFields(parts) == Err(UnknownKind) <==>
            parts[0] == MAGIC && |parts| > 1 && parts[1] != "PROBE" && parts[1] != "ANNOUNCE"
    ensures ParseFields(parts) != Err(NoSpace)
  {
    hide ParseInt;
  }

  /** The second field of a line that goes on after the magic word. */
  lemma KindOf(line: string, kind: string)
    requires MAGIC + "\t" <= line && Free(kind, '\t')
    ensures
      var parts := Split(line, '\t');
      && |parts| > 1 && parts[0] == MAGIC
      && (parts[1] == kind <==> StartsWith(line, MAGIC + "\t" + kind))
  {
    hide Split;
    ConstantsFree(0);
    var rest := line[|MAGIC| + 1..];
    FirstFieldIs(line, MAGIC);
    FirstFieldIs(rest, kind);
    SecondField(line, rest, kind);
  }

  /** The verdict on every line that is not an announce, read off its first characters. */
  lemma ParseErrors(data: string)
    ensures
      var line := Chop(data);
      var probe, announce := MAGIC + "\tPROBE", MAGIC + "\tANNOUNCE";
      && (Parse(data) == Err(BadMagic) <==> !StartsWith(line, MAGIC))
      && (Parse(data) == Ok(Probe) <==> StartsWith(line, probe))
      && (Parse(data) == Err(UnknownKind) <==>
          MAGIC + "\t" <= line && !StartsWith(line, probe) && !StartsWith(line, announce))
      && Parse(data) != Err(NoSpace)
  {
    hide Split, ParseFields, StartsWith, Chop;
    var line := Chop(data);
    assert MAGIC + "\tPROBE" == MAGIC + "\t" + "PROBE" && MAGIC + "\tANNOUNCE" == MAGIC + "\t" + "ANNOUNCE";
    VerdictOfFields(Split(line, '\t'));
    ConstantsFree(0);
    FirstFieldIs(line, MAGIC);
    if MAGIC + "\t" <= line {
      KindOf(line, "PROBE");
      KindOf(line, "ANNOUNCE");
    } else {
      OneField(line);
      NoSecondField(line, "PROBE");
    }
  }

  lemma OneField(line: string)
    requires !(MAGIC + "\t" <= line)
    ensures Split(line, '\t')[0] == MAGIC ==> |Split(line, '\t')| == 1
  {
    ConstantsFree(0);
    FirstFieldIs(line, MAGIC);
  }

  lemma SecondField(line: string, rest: string, kind: string)
    requires line == MAGIC + "\t" + rest
    ensures StartsWith(line, MAGIC + "\t" + kind) <==> StartsWith(rest, kind)
  {
    assert line[|MAGIC| + 1..] == rest;
    if StartsWith(line, MAGIC + "\t" + kind) {
      assert line[|MAGIC| + 1..][..|kind|] == kind;
    }
    if StartsWith(rest, kind) {
      assert line[..|MAGIC| + 1 + |kind|] == MAGIC + "\t" + kind;
    }
  }

  lemma NoSecondField(line: string, kind: string)
    requires !(MAGIC + "\t" <= line)
    ensures !StartsWith(line, MAGIC + "\t" + kind)
  {
    assert MAGIC + "\t" <= MAGIC + "\t" + kind;
  }

  // ------------------------------------------------------------------
  // What the board sends
  // ------------------------------------------------------------------

  /** The board's address in the firmware's printing: six lower-case hex pairs between colons. */
  function BdaddrText(mac: seq<byte>): string
    requires |mac| == 6
  {
    Join([Hex([mac[0]]), Hex([mac[1]]), Hex([mac[2]]), Hex([mac[3]]), Hex([mac[4]]), Hex([mac[5]])], ':')
  }

  lemma HexPair(b: byte)
    ensures |Hex([b])| == 2 && Free(Hex([b]), '\t')
  {
    assert Hex([b]) == [HexDigit(b / 16), HexDigit(b % 16)];
  }

  lemma {:induction false} JoinedPairs(parts: seq<string>)
    requires parts != [] && forall i :: 0 <= i < |parts| ==> |parts[i]| == 2 && Free(parts[i], '\t')
    ensures |Join(parts, ':')| == 3 * |parts| - 1 && Free(Join(parts, ':'), '\t')
  {
    if |parts| > 1 {
      JoinedPairs(parts[1..]);
    }
  }

  lemma BdaddrShape(mac: seq<byte>)
    requires |mac| == 6
    ensures |BdaddrText(mac)| == 17 && Free(BdaddrText(mac), '\t')
  {
    hide Hex, Join;
    forall b: byte
      ensures |Hex([b])| == 2 && Free(Hex([b]), '\t')
    {
      HexPair(b);
    }
    JoinedPairs([Hex([mac[0]]), Hex([mac[1]]), Hex([mac[2]]), Hex([mac[3]]), Hex([mac[4]]), Hex([mac[5]])]);
  }

  /** The size of the firmware's announce buffer, which also takes the terminating zero. */
  const FIRMWARE_BUFFER := 224

  /** The size of the host's receive buffer. */
  const MAX_DATAGRAM := 256

  /** A signed announce is complete in the firmware's buffer exactly for names up to this length; it then fits the host's. */
  lemma BoardAnnounceFitsIff(mac: seq<byte>, port: nat, name: string, sig: seq<byte>)
    requires |mac| == 6 && |sig| == 16
    ensures
      var text := AnnounceText(BdaddrText(mac), port, name, Hex(sig));
      && (|text| < FIRMWARE_BUFFER <==> |name| + |Decimal(port)| <= 153)
      && (|text| < FIRMWARE_BUFFER ==> |text| <= MAX_DATAGRAM)
  {
    hide Hex, Join, BdaddrText, Decimal;
    BdaddrShape(mac);
    JoinSix(MAGIC, "ANNOUNCE", BdaddrText(mac), Decimal(port), name, Hex(sig));
  }

  /** Every announce of the firmware, signed or not, reaches the host as the board meant it. */
  lemma BoardAnnounceParses(mac: seq<byte>, port: nat, name: string, sig: seq<byte>)
    requires |mac| == 6 && port <= U16_MAX && name != "" && Free(name, '\t')
    ensures Parse(AnnounceText(BdaddrText(mac), port, name, Hex(sig))) == Ok(Announce(BdaddrText(mac), port, name, Hex(sig)))
    ensures Parse(AnnounceText(BdaddrText(mac), port, name, "-")) == Ok(Announce(BdaddrText(mac), port, name, "-"))
  {
    hide Parse, AnnounceText, Hex, BdaddrText;
    BdaddrShape(mac);
    HexFree(sig);
    AnnounceRoundTripIff(BdaddrText(mac), port, name, Hex(sig));
    AnnounceRoundTripIff(BdaddrText(mac), port, name, "-");
  }

  lemma {:induction false} HexFree(bytes: seq<byte>)
    ensures Free(Hex(bytes), '\t')
  {
    if bytes != [] {
      HexFree(bytes[1..]);
    }
  }
}
