/** HCI H4 framing (common/h4.zig): packet layouts, the length a header announces,
    and a one-shot parser that serves as the meaning of the incremental reassembler. */
module H4 {
  import opened Bytes

  datatype PacketType = Command | Acl | Sco | Event | Iso

  datatype Error = UnknownPacketType | PacketTooLarge

  /** What a prefix of a packet says about the packet's full length. */
  datatype Total = Unknown | Known(total: nat) | Bad(error: Error)

  /** Largest packet the host session accepts: indicator, 4 header bytes, 16-bit payload. */
  const MAX_PACKET_LEN: nat := 1 + 4 + 0xffff

  function FromByte(b: byte): Option<PacketType> {
    match b
    case 1 => Some(Command)
    case 2 => Some(Acl)
    case 3 => Some(Sco)
    case 4 => Some(Event)
    case 5 => Some(Iso)
    case _ => None
  }

  function HeaderLen(t: PacketType): nat {
    match t
    case Command => 3
    case Acl => 4
    case Sco => 3
    case Event => 2
    case Iso => 4
  }

  /** A 16-bit little-endian field. */
  function Le16(lo: byte, hi: byte): nat {
    lo as int + 256 * (hi as int)
  }

  function PayloadLen(t: PacketType, header: seq<byte>): nat
    requires |header| >= HeaderLen(t)
  {
    match t
    case Command => header[2]
    case Event => header[1]
    case Sco => header[2]
    case Acl => Le16(header[2], header[3])
    case Iso => Le16(header[2], header[3]) % 0x4000
  }

  /** `cap` is the size of the storage the packet has to fit in. */
  function TotalLen(s: seq<byte>, cap: nat): (r: Total)
    ensures r.Known? ==> |s| >= 3 && 3 <= r.total <= cap
  {
    if |s| == 0 then Unknown
    else match FromByte(s[0])
      case None => Bad(UnknownPacketType)
      case Some(t) =>
        var hdr := HeaderLen(t);
        if |s| < 1 + hdr then Unknown
        else
          var total := 1 + hdr + PayloadLen(t, s[1..1 + hdr]);
          if total > cap then Bad(PacketTooLarge) else Known(total)
  }

  /** The bytes after which a malformed packet is recognised as such. */
  function Offence(s: seq<byte>, cap: nat): seq<byte>
    requires TotalLen(s, cap).Bad?
  {
    match FromByte(s[0])
    case None => s[..1]
    case Some(t) => s[..1 + HeaderLen(t)]
  }

  /** More bytes never change a verdict that has been reached. */
  lemma TotalLenStable(s: seq<byte>, more: seq<byte>, cap: nat)
    requires !TotalLen(s, cap).Unknown?
    ensures TotalLen(s + more, cap) == TotalLen(s, cap)
    ensures TotalLen(s, cap).Bad? ==> Offence(s + more, cap) == Offence(s, cap)
  {
    assert (s + more)[0] == s[0];
    if t :| FromByte(s[0]) == Some(t) {
      var hdr := HeaderLen(t);
      assert (s + more)[1..1 + hdr] == s[1..1 + hdr];
      assert (s + more)[..1 + hdr] == s[..1 + hdr];
    } else {
      assert (s + more)[..1] == s[..1];
    }
  }

  // ------------------------------------------------------------------
  // One-shot parser
  // ------------------------------------------------------------------

  /** `rest` is the unfinished packet, or the offending bytes when there is an error. */
  datatype Parsed = Parsed(packets: seq<seq<byte>>, rest: seq<byte>, error: Option<Error>)

  /** Cuts a whole stream into packets, stopping at the first malformed one. */
  function Parse(s: seq<byte>, cap: nat): Parsed
    decreases |s|
  {
    match TotalLen(s, cap)
    case Unknown => Parsed([], s, None)
    case Bad(e) => Parsed([], Offence(s, cap), Some(e))
    case Known(n) =>
      if |s| < n then Parsed([], s, None)
      else
        var tail := Parse(s[n..], cap);
        Parsed([s[..n]] + tail.packets, tail.rest, tail.error)
  }

  /** Parsing can be suspended at any byte and resumed with the rest. */
  lemma {:induction false} ParseResume(a: seq<byte>, b: seq<byte>, cap: nat)
    ensures
      var pa := Parse(a, cap);
      Parse(a + b, cap) ==
        if pa.error.Some? then pa
        else
          var pb := Parse(pa.rest + b, cap);
          Parsed(pa.packets + pb.packets, pb.rest, pb.error)
    decreases |a|
  {
    hide TotalLen, Offence;
    match TotalLen(a, cap)
    case Unknown =>
      assert [] + Parse(a + b, cap).packets == Parse(a + b, cap).packets;
    case Bad(_) =>
      TotalLenStable(a, b, cap);
    case Known(n) =>
      TotalLenStable(a, b, cap);
      if |a| < n {
        assert [] + Parse(a + b, cap).packets == Parse(a + b, cap).packets;
      } else {
        ParseResume(a[n..], b, cap);
        assert (a + b)[..n] == a[..n];
        assert (a + b)[n..] == a[n..] + b;
        var tail := Parse(a[n..], cap);
        if tail.error.None? {
          var pb := Parse(tail.rest + b, cap);
          Assoc([a[..n]], tail.packets, pb.packets);
        }
      }
  }

  /** A packet is framed when its own header announces exactly its length. */
  predicate Framed(p: seq<byte>, cap: nat) {
    TotalLen(p, cap) == Known(|p|)
  }

  predicate AllFramed(ps: seq<seq<byte>>, cap: nat) {
    forall i :: 0 <= i < |ps| ==> Framed(ps[i], cap)
  }

  /** A tail from which no packet can be cut yet. */
  predicate Unfinished(rest: seq<byte>, cap: nat) {
    match TotalLen(rest, cap)
    case Unknown => true
    case Known(n) => |rest| < n
    case Bad(_) => false
  }

  lemma EmptyUnfinished(cap: nat)
    ensures TotalLen([], cap).Unknown? && Unfinished([], cap)
    ensures Parse([], cap) == Parsed([], [], None)
  {
  }

  /** Every way of writing a stream as framed packets and an unfinished tail is the parser's way. */
  lemma {:induction false} ParseUnique(ps: seq<seq<byte>>, rest: seq<byte>, cap: nat)
    requires AllFramed(ps, cap) && Unfinished(rest, cap)
    ensures Parse(Flatten(ps) + rest, cap) == Parsed(ps, rest, None)
  {
    if ps == [] {
      assert Flatten(ps) + rest == rest;
    } else {
      var s := Flatten(ps) + rest;
      assert s == ps[0] + (Flatten(ps[1..]) + rest);
      TotalLenStable(ps[0], Flatten(ps[1..]) + rest, cap);
      assert s[..|ps[0]|] == ps[0] && s[|ps[0]|..] == Flatten(ps[1..]) + rest;
      ParseUnique(ps[1..], rest, cap);
    }
  }

  /** The first `n` bytes of a stream whose header announces `n` are a framed packet. */
  lemma TotalLenCut(s: seq<byte>, n: nat, cap: nat)
    requires TotalLen(s, cap) == Known(n) && n <= |s|
    ensures Framed(s[..n], cap)
  {
    var t := FromByte(s[0]).value;
    assert s[..n][1..1 + HeaderLen(t)] == s[1..1 + HeaderLen(t)];
  }

  /** Whether a packet is malformed is settled by the offending bytes alone. */
  lemma OffenceCut(s: seq<byte>, cap: nat)
    requires TotalLen(s, cap).Bad?
    ensures Offence(s, cap) <= s
    ensures TotalLen(Offence(s, cap), cap) == TotalLen(s, cap)
    ensures Offence(Offence(s, cap), cap) == Offence(s, cap)
  {
    var off := Offence(s, cap);
    assert off[0] == s[0];
    if t :| FromByte(s[0]) == Some(t) {
      assert off[1..1 + HeaderLen(t)] == s[1..1 + HeaderLen(t)];
    }
  }

  lemma PrefixAfter(s: seq<byte>, n: nat, x: seq<byte>)
    requires n <= |s| && x <= s[n..]
    ensures s[..n] + x <= s
    ensures x == s[n..] ==> s[..n] + x == s
  {
  }

  /** Conversely the parser always returns framed packets and, short of an error, an unfinished tail;
      together they are the bytes it was given. On an error they are a prefix of those bytes. */
  lemma {:induction false} ParseSound(s: seq<byte>, cap: nat)
    ensures
      var p := Parse(s, cap);
      && AllFramed(p.packets, cap)
      && Flatten(p.packets) + p.rest <= s
      && (p.error.None? ==> Flatten(p.packets) + p.rest == s && Unfinished(p.rest, cap))
      && (p.error.Some? ==> TotalLen(p.rest, cap) == Bad(p.error.value))
    decreases |s|
  {
    hide TotalLen, Offence;
    match TotalLen(s, cap)
    case Unknown =>
      assert [] + s == s;
    case Bad(_) =>
      OffenceCut(s, cap);
      assert [] + Offence(s, cap) == Offence(s, cap);
    case Known(n) =>
      if n <= |s| {
        ParseSound(s[n..], cap);
        TotalLenCut(s, n, cap);
        var tail := Parse(s[n..], cap);
        var ps := [s[..n]] + tail.packets;
        assert ps[0] == s[..n] && ps[1..] == tail.packets;
        Assoc(s[..n], Flatten(tail.packets), tail.rest);
        PrefixAfter(s, n, Flatten(tail.packets) + tail.rest);
      } else {
        assert [] + s == s;
      }
  }

  /** A prefix of a packet stream never produces an error, only fewer packets. */
  lemma ParsePrefix(s: seq<byte>, ps: seq<seq<byte>>, cap: nat)
    requires AllFramed(ps, cap) && s <= Flatten(ps)
    ensures Parse(s, cap).error.None?
    ensures Parse(s, cap).packets <= ps
  {
    var more := Flatten(ps)[|s|..];
    assert Flatten(ps) == s + more;
    assert Flatten(ps) + [] == Flatten(ps);
    ParseUnique(ps, [], cap);
    ParseResume(s, more, cap);
  }

  // ------------------------------------------------------------------
  // Packet layouts, Bluetooth Core Specification Vol 4 Part E 5.4.1 to 5.4.5
  // ------------------------------------------------------------------

  datatype Packet =
    | CommandPacket(opcode: (byte, byte), params: seq<byte>)
    | AclPacket(handle: (byte, byte), data: seq<byte>)
    | ScoPacket(handle: (byte, byte), data: seq<byte>)
    | EventPacket(code: byte, params: seq<byte>)
    | IsoPacket(handle: (byte, byte), reserved: nat, data: seq<byte>)

  predicate WellFormed(p: Packet) {
    match p
    case CommandPacket(_, params) => |params| <= 0xff
    case AclPacket(_, data) => |data| <= 0xffff
    case ScoPacket(_, data) => |data| <= 0xff
    case EventPacket(_, params) => |params| <= 0xff
    case IsoPacket(_, reserved, data) => reserved < 4 && |data| <= 0x3fff
  }

  function Encode(p: Packet): seq<byte>
    requires WellFormed(p)
  {
    match p
    case CommandPacket(op, params) => [1, op.0, op.1, |params|] + params
    case AclPacket(h, data) => [2, h.0, h.1, |data| % 256, |data| / 256] + data
    case ScoPacket(h, data) => [3, h.0, h.1, |data|] + data
    case EventPacket(code, params) => [4, code, |params|] + params
    case IsoPacket(h, reserved, data) => [5, h.0, h.1, |data| % 256, |data| / 256 + 64 * reserved] + data
  }

  lemma EncodeLength(p: Packet, cap: nat)
    requires WellFormed(p)
    ensures TotalLen(Encode(p), cap) ==
            if |Encode(p)| <= cap then Known(|Encode(p)|) else Bad(PacketTooLarge)
  {
    var s := Encode(p);
    var t := FromByte(s[0]).value;
    var header := s[1..1 + HeaderLen(t)];
    if p.IsoPacket? {
      var n := |p.data|;
      assert Le16(header[2], header[3]) == n + 0x4000 * p.reserved;
    }
  }

  /** Reads a framed packet back into its fields. */
  function Decode(s: seq<byte>): Packet
    requires Framed(s, |s|)
  {
    match FromByte(s[0]).value
    case Command => CommandPacket((s[1], s[2]), s[4..])
    case Acl => AclPacket((s[1], s[2]), s[5..])
    case Sco => ScoPacket((s[1], s[2]), s[4..])
    case Event => EventPacket(s[1], s[3..])
    case Iso => IsoPacket((s[1], s[2]), s[4] / 64, s[5..])
  }

  lemma Le16Split(lo: byte, hi: byte)
    ensures Le16(lo, hi) % 256 == lo && Le16(lo, hi) / 256 == hi
    ensures
      var n := Le16(lo, hi) % 0x4000;
      n % 256 == lo && n / 256 + 64 * (hi / 64) == hi && hi / 64 < 4
  {
    assert Le16(lo, hi) % 0x4000 == lo as int + 256 * (hi as int % 64);
  }

  /** A byte string is framed exactly when it is the encoding of some well-formed packet;
      `EncodeLength` is the other half. */
  lemma FramedIsEncoded(s: seq<byte>)
    requires Framed(s, |s|)
    ensures WellFormed(Decode(s)) && Encode(Decode(s)) == s
  {
    var t := FromByte(s[0]).value;
    var hdr := HeaderLen(t);
    assert |s| == 1 + hdr + PayloadLen(t, s[1..1 + hdr]);
    if hdr == 4 {
      Le16Split(s[3], s[4]);
      assert |s| - 5 == if t.Acl? then Le16(s[3], s[4]) else Le16(s[3], s[4]) % 0x4000;
      assert s == [s[0], s[1], s[2], s[3], s[4]] + s[5..];
    } else if hdr == 3 {
      assert s == [s[0], s[1], s[2], s[3]] + s[4..];
    } else {
      assert s == [s[0], s[1], s[2]] + s[3..];
    }
  }

  /** The length prefix of a packet before its payload. */
  function HeadOf(p: Packet): nat {
    if p.EventPacket? then 3 else if p.AclPacket? || p.IsoPacket? then 5 else 4
  }

  function PayloadOf(p: Packet): seq<byte> {
    if p.EventPacket? || p.CommandPacket? then p.params else p.data
  }

  lemma EncodeInjective(p: Packet, q: Packet)
    requires WellFormed(p) && WellFormed(q) && Encode(p) == Encode(q)
    ensures p == q
  {
    var s := Encode(p);
    assert s[0] == Encode(q)[0] && s[1] == Encode(q)[1] && s[2] == Encode(q)[2];
    assert HeadOf(p) == HeadOf(q);
    assert s[HeadOf(p)..] == PayloadOf(p) && Encode(q)[HeadOf(p)..] == PayloadOf(q);
    if p.IsoPacket? {
      assert s[4] == |p.data| / 256 + 64 * p.reserved;
      assert Encode(q)[4] == |q.data| / 256 + 64 * q.reserved;
    }
  }

  function EncodeAll(ps: seq<Packet>): (r: seq<seq<byte>>)
    requires forall p :: p in ps ==> WellFormed(p)
    ensures |r| == |ps| && forall i :: 0 <= i < |ps| ==> r[i] == Encode(ps[i])
  {
    seq(|ps|, i requires 0 <= i < |ps| => Encode(ps[i]))
  }

  /** Framing round trip: well-formed packets that fit come back exactly, with nothing left over. */
  lemma FramingRoundTrip(ps: seq<Packet>, cap: nat)
    requires forall p :: p in ps ==> WellFormed(p) && |Encode(p)| <= cap
    ensures Parse(Flatten(EncodeAll(ps)), cap) == Parsed(EncodeAll(ps), [], None)
  {
    var es := EncodeAll(ps);
    forall i | 0 <= i < |es| ensures Framed(es[i], cap) {
      assert ps[i] in ps;
      EncodeLength(ps[i], cap);
    }
    assert Flatten(es) + [] == Flatten(es);
    ParseUnique(es, [], cap);
  }
}
