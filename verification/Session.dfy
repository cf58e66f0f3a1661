/** The host end of a connection (host/session.zig): TCP bytes become packets for the vhci device. */
module Session {
  import opened Bytes
  import opened H4
  import opened Reassembling
  import opened Bridge
  import opened BridgeTheorems

  /** How the pump from TCP to the local endpoint came to its end. */
  datatype End = Drained | Protocol(error: Error) | LocalFailed

  /** What has been written when `accepts` writes to the local endpoint succeed before one fails. */
  predicate Written(written: seq<seq<byte>>, end: End, p: Parsed, accepts: nat) {
    match end
    case Drained => written == p.packets && p.error.None? && |p.packets| <= accepts
    case Protocol(e) => written == p.packets && p.error == Some(e) && |p.packets| <= accepts
    case LocalFailed => accepts < |p.packets| && written == p.packets[..accepts]
  }

  /** One filled read buffer: every packet is written as soon as it is complete. */
  method PumpChunk(re: Reassembler, chunk: seq<byte>, accepts: nat)
    returns (written: seq<seq<byte>>, end: End)
    requires re.Valid() && chunk != []
    modifies re`len, re.buf
    ensures re.Valid()
    ensures
      var p := Parse(old(Pending(re.Contents(), re.buf.Length)) + chunk, re.buf.Length);
      Written(written, end, p, accepts) && (end.Drained? ==> Pending(re.Contents(), re.buf.Length) == p.rest)
  {
    hide TotalLen, Offence, Consistent;
    ghost var cap := re.buf.Length;
    ghost var whole := Parse(Pending(re.Contents(), cap) + chunk, cap);
    written := [];
    var rest := chunk;
    while rest != []
      invariant re.Valid() && |written| <= accepts
      invariant rest == [] ==> whole == Parsed(written, Pending(re.Contents(), cap), None)
      invariant rest != [] ==>
        var p := Parse(Pending(re.Contents(), cap) + rest, cap);
        whole == Parsed(written + p.packets, p.rest, p.error)
      decreases |rest|
    {
      ghost var before := re.Contents();
      EmptyUnfinished(cap);
      var r := re.Feed(rest);
      FeedParse(before, rest, cap, r, re.Contents());
      if r.Failed? {
        assert written + [] == written;
        return written, Protocol(r.error);
      }
      rest := rest[r.consumed..];
      if r.packet.Some? {
        ghost var tail := Parse(rest, cap);
        Assoc(written, [r.packet.value], tail.packets);
        assert Pending(re.Contents(), cap) + rest == rest;
        if |written| == accepts {
          assert whole.packets[..accepts] == written;
          return written, LocalFailed;
        }
        written := written + [r.packet.value];
      }
      assert written + [] == written;
    }
    end := Drained;
  }

  /** The whole pump, over the chunks the socket happens to deliver. */
  method TcpToLocal(re: Reassembler, chunks: seq<seq<byte>>, accepts: nat)
    returns (written: seq<seq<byte>>, end: End)
    requires re.Valid() && re.Contents() == []
    requires forall i :: 0 <= i < |chunks| ==> chunks[i] != []
    modifies re`len, re.buf
    ensures Written(written, end, Parse(Flatten(chunks), re.buf.Length), accepts)
  {
    hide TotalLen, Offence, Consistent, Flatten, Parse;
    ghost var cap := re.buf.Length;
    written := [];
    EmptyUnfinished(cap);
    FlattenNothing<byte>();
    assert chunks[..0] == [];
    var i := 0;
    while i < |chunks|
      invariant i <= |chunks| && re.Valid() && |written| <= accepts
      invariant Parse(Flatten(chunks[..i]), cap) == Parsed(written, Pending(re.Contents(), cap), None)
    {
      ghost var seen := Flatten(chunks[..i]);
      ghost var whole := Parse(Flatten(chunks), cap);
      FlattenSplit(chunks, i);
      ParseResume(seen, chunks[i], cap);
      ParseResume(seen + chunks[i], Flatten(chunks[i + 1..]), cap);
      var more, stop := PumpChunk(re, chunks[i], accepts - |written|);
      if stop.LocalFailed? {
        PrefixOfPackets(written, more, Parse(seen + chunks[i], cap).packets, whole.packets, accepts);
        return written + more, stop;
      }
      written := written + more;
      if stop.Protocol? {
        return written, stop;
      }
      i := i + 1;
    }
    assert chunks[..i] == chunks;
    end := Drained;
  }

  lemma PrefixOfPackets(
    written: seq<seq<byte>>, more: seq<seq<byte>>, now: seq<seq<byte>>, all: seq<seq<byte>>, accepts: nat)
    requires |written| <= accepts < |now| && now <= all
    requires written <= now && more == now[|written|..][..accepts - |written|]
    ensures written + more == all[..accepts] && accepts < |all|
  {
  }

  /** The board's rx task calls the same reassembler: its round in the step machine is one call of `feed`. */
  lemma FeedOnceIsFeed(contents: seq<byte>, chunk: seq<byte>, r: FeedResult, after: seq<byte>)
    requires Consistent(contents, RX_PACKET_LEN)
    requires Feeds(Pending(contents, RX_PACKET_LEN), chunk, RX_PACKET_LEN, r, after)
    ensures FeedOnce(Pending(contents, RX_PACKET_LEN), chunk) ==
            if r.Failed? then Bridge.FeedError
            else Bridge.Fed(r.packet, chunk[r.consumed..], Pending(after, RX_PACKET_LEN))
  {
    hide TotalLen, Offence;
    var pending := Pending(contents, RX_PACKET_LEN);
    FeedParse(contents, chunk, RX_PACKET_LEN, r, after);
    if r.Fed? && r.packet.Some? {
      assert (pending + chunk)[|pending| + r.consumed..] == chunk[r.consumed..];
    }
  }

  /** End to end, in the host's own terms: whatever the board did and however TCP cut the bytes, the
      packets a session writes to vhci are a prefix of the packets the controller queued after that
      connection's drain ended, and the session never ends in a protocol error. */
  method ReceiveFromBoard(re: Reassembler, chunks: seq<seq<byte>>, accepts: nat,
                          ghost schedule: seq<Action>, ghost c: Conn)
    returns (written: seq<seq<byte>>, end: End)
    requires re.Valid() && re.Contents() == [] && re.buf.Length == MAX_PACKET_LEN
    requires forall i :: 0 <= i < |chunks| ==> chunks[i] != []
    requires Harmless(INITIAL, schedule) && ControllerFrames(schedule)
    requires c in Exec(INITIAL, schedule).l.wire && Flatten(chunks) <= Exec(INITIAL, schedule).l.wire[c]
    modifies re`len, re.buf
    ensures !end.Protocol?
    ensures
      var l := Exec(INITIAL, schedule).l;
      c in l.start && l.start[c] <= |l.queued| && written <= l.queued[l.start[c]..]
  {
    hide Exec, Harmless, Flatten, Parse, ControllerFrames;
    EndToEnd(schedule, c, Flatten(chunks));
    written, end := TcpToLocal(re, chunks, accepts);
  }
}
