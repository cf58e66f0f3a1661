/** From the host to the controller: the session's other pump (host/session.zig) into the board's rx task. */
module Upstream {
  import opened Bytes
  import opened H4
  import opened Bridge
  import opened BridgeTheorems

  /** One round of localToTcp: the poll times out, the endpoint hangs up, a packet is read (an empty one is the end of the
      stream), or the other direction has asked to stop. */
  datatype Turn = Quiet | HangUp | Read(pkt: seq<byte>) | Stop

  datatype PumpEnd = Running | Closed | EndOfStream | TcpFailed | Asked

  predicate Ends(t: Turn) {
    t.HangUp? || t.Stop? || t == Read([])
  }

  /** A packet whose first byte is a known type. */
  predicate Passes(t: Turn) {
    t.Read? && t.pkt != [] && FromByte(t.pkt[0]).Some?
  }

  /** The turn that ends the loop. */
  function LastTurn(turns: seq<Turn>): (n: nat)
    ensures n <= |turns|
    ensures forall i :: 0 <= i < n ==> !Ends(turns[i])
    ensures n < |turns| ==> Ends(turns[n])
  {
    if turns == [] || Ends(turns[0]) then 0 else 1 + LastTurn(turns[1..])
  }

  function Packets(turns: seq<Turn>): seq<seq<byte>> {
    if turns == [] then [] else (if Passes(turns[0]) then [turns[0].pkt] else []) + Packets(turns[1..])
  }

  /** What is to be forwarded: the packets of known type before the turn that ends the loop. */
  function Forwarded(turns: seq<Turn>): seq<seq<byte>> {
    Packets(turns[..LastTurn(turns)])
  }

  lemma {:induction false} PacketsConcat(a: seq<Turn>, b: seq<Turn>)
    ensures Packets(a + b) == Packets(a) + Packets(b)
  {
    if a == [] {
      assert a + b == b;
    } else {
      TailOfConcat(a, b);
      PacketsConcat(a[1..], b);
      Assoc(if Passes(a[0]) then [a[0].pkt] else [], Packets(a[1..]), Packets(b));
    }
  }

  /** Each packet of known type is passed on as often as it was read, and no other. */
  lemma {:induction false} PacketsOf(turns: seq<Turn>, p: seq<byte>)
    ensures multiset(Packets(turns))[p] == if p != [] && FromByte(p[0]).Some? then multiset(turns)[Read(p)] else 0
  {
    if turns != [] {
      PacketsOf(turns[1..], p);
      assert turns == [turns[0]] + turns[1..];
    }
  }

  lemma PacketsTake(turns: seq<Turn>, i: nat)
    requires i < |turns|
    ensures Packets(turns[..i + 1]) == Packets(turns[..i]) + (if Passes(turns[i]) then [turns[i].pkt] else [])
  {
    TakeSnoc(turns, i);
    PacketsConcat(turns[..i], [turns[i]]);
    assert [turns[i]][1..] == [];
  }

  /** Packets further on do not change those before. */
  lemma PacketsGrow(turns: seq<Turn>, i: nat, j: nat)
    requires i <= j <= |turns|
    ensures Packets(turns[..i]) <= Packets(turns[..j])
  {
    JoinSlices(turns, 0, i, j);
    PacketsConcat(turns[..i], turns[i..j]);
  }

  lemma FlattenPrefix(a: seq<seq<byte>>, b: seq<seq<byte>>)
    requires a <= b
    ensures Flatten(a) <= Flatten(b)
  {
    hide Flatten;
    FlattenAt(b, |a|);
    assert b[..|a|] == a;
  }

  /** The pump: `accepts` writes to TCP succeed before one fails after `part` bytes of its packet. All the bytes sent are
      the packets to be forwarded, up to that failure. */
  method LocalToTcp(turns: seq<Turn>, accepts: nat, part: nat) returns (sent: seq<byte>, end: PumpEnd)
    ensures sent <= Flatten(Forwarded(turns))
    ensures !end.TcpFailed? ==> sent == Flatten(Forwarded(turns)) && |Forwarded(turns)| <= accepts
    ensures end.TcpFailed? ==>
      && accepts < |Forwarded(turns)|
      && sent == Flatten(Forwarded(turns)[..accepts]) + Forwarded(turns)[accepts][..Min(part, |Forwarded(turns)[accepts]|)]
    ensures !end.TcpFailed? ==>
      var n := LastTurn(turns);
      end == if n == |turns| then Running else if turns[n].HangUp? then Closed else if turns[n].Stop? then Asked else EndOfStream
  {
    hide Flatten, Packets, Passes;
    ghost var n := LastTurn(turns);
    ghost var all := Packets(turns[..n]);
    sent := [];
    var written := 0;
    var i := 0;
    NoPackets(turns);
    FlattenNothing<byte>();
    while i < |turns|
      invariant 0 <= i <= n && written <= accepts
      invariant sent == Flatten(Packets(turns[..i])) && written == |Packets(turns[..i])|
    {
      match turns[i] {
        case Stop =>
          assert Ends(turns[i]);
          return sent, Asked;
        case HangUp =>
          assert Ends(turns[i]);
          return sent, Closed;
        case Quiet =>
          QuietTurn(turns, i);
        case Read(pkt) =>
          if pkt == [] {
            assert Ends(turns[i]);
            return sent, EndOfStream;
          }
          ghost var so := Packets(turns[..i]);
          PacketTurn(turns, i);
          if FromByte(pkt[0]).Some? {
            PacketsGrow(turns, i + 1, n);
            FlattenSnoc(so, pkt);
            FlattenPrefix(so + [pkt], all);
            if written == accepts {
              assert all[..accepts] == so && all[accepts] == pkt;
              PartOf(Flatten(so), pkt, Min(part, |pkt|));
              return sent + pkt[..Min(part, |pkt|)], TcpFailed;
            }
            sent := sent + pkt;
            written := written + 1;
          }
      }
      i := i + 1;
    }
    end := Running;
  }

  /** A poll that times out changes nothing. */
  lemma QuietTurn(turns: seq<Turn>, i: nat)
    requires i < |turns| && turns[i].Quiet?
    ensures !Ends(turns[i]) && Packets(turns[..i + 1]) == Packets(turns[..i])
  {
    PacketsTake(turns, i);
    assert Packets(turns[..i]) + [] == Packets(turns[..i]);
  }

  lemma PacketTurn(turns: seq<Turn>, i: nat)
    requires i < |turns| && turns[i].Read? && turns[i].pkt != []
    ensures !Ends(turns[i])
    ensures Packets(turns[..i + 1]) ==
            if FromByte(turns[i].pkt[0]).Some? then Packets(turns[..i]) + [turns[i].pkt] else Packets(turns[..i])
  {
    PacketsTake(turns, i);
    assert Packets(turns[..i]) + [] == Packets(turns[..i]);
  }

  lemma NoPackets(turns: seq<Turn>)
    ensures Packets(turns[..0]) == []
  {
  }

  lemma PartOf(a: seq<byte>, p: seq<byte>, n: nat)
    requires n <= |p|
    ensures a + p[..n] <= a + p
  {
  }

  /** The packets before the first one that does not fit the storage. */
  function Fitting(ps: seq<seq<byte>>, cap: nat): (k: nat)
    ensures k <= |ps|
    ensures forall i :: 0 <= i < k ==> |ps[i]| <= cap
    ensures k < |ps| ==> |ps[k]| > cap
  {
    if ps == [] || |ps[0]| > cap then 0 else 1 + Fitting(ps[1..], cap)
  }

  lemma FramedFits(p: seq<byte>, cap: nat)
    requires Framed(p, MAX_PACKET_LEN)
    ensures |p| <= cap <==> Framed(p, cap)
    ensures |p| > cap ==> TotalLen(p, cap) == Bad(PacketTooLarge)
  {
  }

  /** A host may send packets larger than the board can store. Exactly then the board sees an error: it takes the packets
      before the first such one and none after it. */
  lemma {:induction false} TooLargeIff(ps: seq<seq<byte>>, cap: nat)
    requires AllFramed(ps, MAX_PACKET_LEN)
    ensures
      var p, k := Parse(Flatten(ps), cap), Fitting(ps, cap);
      p.packets == ps[..k] && p.error == if k == |ps| then None else Some(PacketTooLarge)
  {
    hide Flatten, TotalLen, Offence;
    var k := Fitting(ps, cap);
    forall i | 0 <= i < |ps|
      ensures Framed(ps[i], cap) <==> |ps[i]| <= cap
      ensures |ps[i]| > cap ==> TotalLen(ps[i], cap) == Bad(PacketTooLarge)
    {
      FramedFits(ps[i], cap);
    }
    FlattenAt(ps, k);
    if k == |ps| {
      assert ps[..k] == ps;
      assert Flatten(ps) + [] == Flatten(ps);
      EmptyUnfinished(cap);
      ParseUnique(ps, [], cap);
    } else {
      FlattenSplit(ps, k);
      var tail := Flatten(ps[k + 1..]);
      Assoc(Flatten(ps[..k]), ps[k], tail);
      TotalLenStable(ps[k], tail, cap);
      ParsePacketsThen(ps[..k], ps[k] + tail, cap);
      assert ps[..k] + [] == ps[..k];
    }
  }

  lemma ParsePacketsThen(ps: seq<seq<byte>>, s: seq<byte>, cap: nat)
    requires AllFramed(ps, cap)
    ensures Parse(Flatten(ps) + s, cap) ==
            var p := Parse(s, cap);
            Parsed(ps + p.packets, p.rest, p.error)
  {
    hide Flatten, TotalLen, Offence;
    EmptyUnfinished(cap);
    ParseUnique(ps, [], cap);
    assert Flatten(ps) + [] == Flatten(ps);
    ParseResume(Flatten(ps), s, cap);
    assert [] + s == s;
  }

  /** How much of an oversized packet has to arrive before it is recognised. */
  lemma TooLargeIsSeen(p: seq<byte>, tail: seq<byte>, x: seq<byte>, cap: nat)
    requires TotalLen(p, cap) == Bad(PacketTooLarge) && x <= p + tail
    ensures Offence(p, cap) <= x ==> Parse(x, cap).packets == [] && Parse(x, cap).error == Some(PacketTooLarge)
    ensures !(Offence(p, cap) <= x) ==> Parse(x, cap).packets == [] && Parse(x, cap).error.None?
  {
    hide Parse;
    var t := FromByte(p[0]).value;
    var n := 1 + HeaderLen(t);
    assert Offence(p, cap) == p[..n];
    if n <= |x| {
      assert x[..n] == p[..n];
      TotalLenStable(p[..n], x[n..], cap) by { OffenceCut(p, cap); }
      assert x == p[..n] + x[n..];
      OffenceCut(p, cap);
      BadParses(x, cap);
    } else {
      assert x == [] || x[0] == p[0];
      ShortParses(x, cap);
    }
  }

  lemma BadParses(x: seq<byte>, cap: nat)
    requires TotalLen(x, cap) == Bad(PacketTooLarge)
    ensures Parse(x, cap).packets == [] && Parse(x, cap).error == Some(PacketTooLarge)
  {
  }

  lemma ShortParses(x: seq<byte>, cap: nat)
    requires TotalLen(x, cap).Unknown?
    ensures Parse(x, cap).packets == [] && Parse(x, cap).error.None?
  {
  }

  /** Once everything before an oversized packet has arrived. */
  lemma PrefixBeyond(head: seq<seq<byte>>, p: seq<byte>, tail: seq<byte>, x: seq<byte>, cap: nat)
    requires AllFramed(head, cap) && TooLarge(p, cap) && x <= p + tail
    ensures
      var r := Parse(Flatten(head) + x, cap);
      && r.packets == head
      && (r.error.Some? <==> Flatten(head) + Offence(p, cap) <= Flatten(head) + x)
      && (r.error.Some? ==> r.error == Some(PacketTooLarge))
  {
    hide Flatten, TotalLen, Offence, Parse, Framed;
    ParsePacketsThen(head, x, cap);
    TooLargeIsSeen(p, tail, x, cap);
    assert head + [] == head;
    SameHead(Flatten(head), Offence(p, cap), x);
  }

  lemma FittingFramed(ps: seq<seq<byte>>, cap: nat)
    requires AllFramed(ps, MAX_PACKET_LEN)
    ensures
      var k := Fitting(ps, cap);
      AllFramed(ps[..k], cap) && (k < |ps| ==> TooLarge(ps[k], cap))
  {
    hide TotalLen;
    var k := Fitting(ps, cap);
    forall i | 0 <= i < |ps|
      ensures i < k ==> Framed(ps[i], cap)
      ensures i == k ==> TooLarge(ps[i], cap)
    {
      FramedFits(ps[i], cap);
    }
  }

  /** A prefix of a stream of packets, some of them too large: the packets before the first such one, and an error exactly
      when its header has arrived. */
  lemma PrefixParses(got: seq<byte>, ps: seq<seq<byte>>, cap: nat)
    requires AllFramed(ps, MAX_PACKET_LEN) && got <= Flatten(ps)
    ensures
      var p, k := Parse(got, cap), Fitting(ps, cap);
      && p.packets <= ps[..k]
      && (p.error.Some? <==> k < |ps| && TooLarge(ps[k], cap) && Flatten(ps[..k]) + Offence(ps[k], cap) <= got)
      && (p.error.Some? ==> p.packets == ps[..k] && p.error == Some(PacketTooLarge))
  {
    hide Flatten, Offence, Parse, Framed, TotalLen, AllFramed, Fitting;
    var k := Fitting(ps, cap);
    FittingFramed(ps, cap);
    FlattenAt(ps, k);
    var head := Flatten(ps[..k]);
    if |got| <= |head| {
      assert got <= head;
      ParsePrefix(got, ps[..k], cap);
      if k < |ps| {
        OffenceNotEmpty(ps[k], cap);
      }
    } else {
      TailHasPacket(ps, k, head);
      FlattenSplit(ps, k);
      var tail, x := Flatten(ps[k + 1..]), got[|head|..];
      Assoc(head, ps[k], tail);
      assert got == head + x;
      assert x <= ps[k] + tail by { PrefixAfterHead(head, x, ps[k] + tail); }
      PrefixBeyond(ps[..k], ps[k], tail, x, cap);
    }
  }

  lemma PrefixAfterHead(head: seq<byte>, x: seq<byte>, y: seq<byte>)
    requires head + x <= head + y
    ensures x <= y
  {
    SameHead(head, x, y);
  }

  predicate TooLarge(p: seq<byte>, cap: nat) {
    TotalLen(p, cap) == Bad(PacketTooLarge)
  }

  lemma SameHead(head: seq<byte>, a: seq<byte>, b: seq<byte>)
    ensures head + a <= head + b <==> a <= b
  {
    if head + a <= head + b {
      assert a == (head + a)[|head|..] == (head + b)[|head|..][..|a|];
    }
  }

  lemma OffenceNotEmpty(p: seq<byte>, cap: nat)
    requires TotalLen(p, cap).Bad?
    ensures Offence(p, cap) != []
  {
  }

  lemma TailHasPacket(ps: seq<seq<byte>>, k: nat, head: seq<byte>)
    requires k <= |ps| && head == Flatten(ps[..k]) && |Flatten(ps)| > |head|
    ensures k < |ps|
  {
    assert ps[..|ps|] == ps;
  }

  /** From the local endpoint to the controller, in every schedule of the board: if what the board receives on a connection
      is a part of what the host's pump sent, the controller gets the forwarded packets in order from the first one on, up
      to the first that is larger than the board's storage; and the board sees a protocol error exactly when the header of
      such a packet has arrived. */
  lemma HostToController(turns: seq<Turn>, sent: seq<byte>, schedule: seq<Action>, c: Conn)
    requires AllFramed(Forwarded(turns), MAX_PACKET_LEN) && sent <= Flatten(Forwarded(turns))
    requires c in Exec(INITIAL, schedule).h.received && Exec(INITIAL, schedule).h.received[c] <= sent
    ensures
      var h := Exec(INITIAL, schedule).h;
      var ps, got := Forwarded(turns), h.received[c];
      var k := Fitting(ps, RX_PACKET_LEN);
      && c in h.handed && h.handed[c] <= ps[..k]
      && (Parse(got, RX_PACKET_LEN).error.Some? <==>
            && k < |ps| && TooLarge(ps[k], RX_PACKET_LEN)
            && Flatten(ps[..k]) + Offence(ps[k], RX_PACKET_LEN) <= got)
  {
    hide Exec, Parse, Flatten, Framed, TotalLen, Offence, Packets;
    HandedIsParse(schedule, c);
    PrefixParses(Exec(INITIAL, schedule).h.received[c], Forwarded(turns), RX_PACKET_LEN);
  }
}
