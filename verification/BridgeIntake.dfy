/** What rx hands to the controller is the parse of what it received on that connection. */
module BridgeIntake {
  import opened Bytes
  import opened H4
  import opened Bridge
  import opened BridgeInvariant

  /** The packets handed on are all the packets of the bytes received. */
  predicate Settled(received: seq<byte>, handed: seq<seq<byte>>) {
    handed == Parse(received, RX_PACKET_LEN).packets
  }

  /** The packets handed on, then those still in the reassembler and the current chunk. */
  predicate Progress(received: seq<byte>, handed: seq<seq<byte>>, pending: seq<byte>, chunk: seq<byte>) {
    var q := Parse(pending + chunk, RX_PACKET_LEN);
    Parse(received, RX_PACKET_LEN) == Parsed(handed + q.packets, q.rest, q.error)
  }

  function Chunk(rx: RxPc): seq<byte> {
    if rx.Feeding? then rx.chunk else []
  }

  lemma UnfinishedParse(pending: seq<byte>)
    requires Unfinished(pending, RX_PACKET_LEN)
    ensures Parse(pending, RX_PACKET_LEN) == Parsed([], pending, None)
    ensures Parse(pending + [], RX_PACKET_LEN) == Parsed([], pending, None)
  {
    assert pending + [] == pending;
  }

  lemma ProgressSettles(received: seq<byte>, handed: seq<seq<byte>>, pending: seq<byte>)
    requires Unfinished(pending, RX_PACKET_LEN) && Progress(received, handed, pending, [])
    ensures Settled(received, handed) && Parse(received, RX_PACKET_LEN) == Parsed(handed, pending, None)
  {
    hide Unfinished, TotalLen;
    UnfinishedParse(pending);
    assert handed + [] == handed;
  }

  lemma ProgressReceive(received: seq<byte>, handed: seq<seq<byte>>, pending: seq<byte>, data: seq<byte>)
    requires Unfinished(pending, RX_PACKET_LEN) && Progress(received, handed, pending, [])
    ensures Progress(received + data, handed, pending, data)
  {
    hide Unfinished, TotalLen;
    ProgressSettles(received, handed, pending);
    ParseResume(received, data, RX_PACKET_LEN);
  }

  /** One call of the reassembler takes one packet off what is still to come. */
  lemma FeedOnceParse(pending: seq<byte>, chunk: seq<byte>)
    ensures
      var whole := Parse(pending + chunk, RX_PACKET_LEN);
      match FeedOnce(pending, chunk)
      case FeedError => whole.packets == [] && whole.error.Some?
      case Fed(pkt, left, pending') =>
        && Unfinished(pending', RX_PACKET_LEN)
        && (pkt.None? ==> whole == Parse(pending' + left, RX_PACKET_LEN))
        && (pkt.Some? ==>
              var tail := Parse(pending' + left, RX_PACKET_LEN);
              whole == Parsed([pkt.value] + tail.packets, tail.rest, tail.error))
  {
    hide TotalLen, Offence;
    var s := pending + chunk;
    assert TotalLen([], RX_PACKET_LEN).Unknown? by { EmptyUnfinished(RX_PACKET_LEN); }
    match FeedOnce(pending, chunk)
    case FeedError =>
    case Fed(pkt, left, pending') =>
      if pkt.Some? {
        assert pending' + left == left;
      } else {
        assert pending' + left == s;
      }
  }

  lemma ProgressFeed(received: seq<byte>, handed: seq<seq<byte>>, pending: seq<byte>, chunk: seq<byte>)
    requires Progress(received, handed, pending, chunk)
    ensures
      match FeedOnce(pending, chunk)
      case FeedError => Settled(received, handed)
      case Fed(pkt, left, pending') =>
        && Unfinished(pending', RX_PACKET_LEN)
        && (pkt.None? ==> Progress(received, handed, pending', left))
        && (pkt.Some? ==> Progress(received, handed + [pkt.value], pending', left))
  {
    hide FeedOnce, Unfinished, Parse;
    FeedOnceParse(pending, chunk);
    match FeedOnce(pending, chunk)
    case FeedError =>
      assert handed + [] == handed;
    case Fed(pkt, left, pending') =>
      if pkt.Some? {
        Assoc(handed, [pkt.value], Parse(pending' + left, RX_PACKET_LEN).packets);
      }
  }

  predicate Finished(received: map<Conn, seq<byte>>, handed: map<Conn, seq<seq<byte>>>, live: Option<Conn>) {
    forall c :: c in received && live != Some(c) ==> c in handed && Settled(received[c], handed[c])
  }

  predicate Untouched(h: History, c: Conn) {
    c in h.received && c in h.handed && h.received[c] == [] && h.handed[c] == []
  }

  predicate LiveIntake(h: History, rx: RxPc, pending: seq<byte>, c: Conn) {
    && c in h.received && c in h.handed
    && if rx == DropSwap(ProtocolError) then Settled(h.received[c], h.handed[c])
       else Progress(h.received[c], h.handed[c], pending, Chunk(rx))
  }

  /** The reassembler was reset and nothing has been fed to it since. */
  predicate Reset(rx: RxPc) {
    rx.LowerIdle? || rx.RaisePause? || rx.WaitIdle? || Exclusive(rx)
  }

  /** Everything rx read from one connection has become packets for the controller. */
  predicate Intake(s: State) {
    && Unfinished(s.pending, RX_PACKET_LEN)
    && Finished(s.h.received, s.h.handed, s.client)
    && (s.client.Some? ==> LiveIntake(s.h, s.rx, s.pending, s.client.value))
    && (s.rx.Feeding? ==> s.client == Some(s.rx.conn))
    && (s.rx.Publish? ==> Untouched(s.h, s.rx.peer))
    && (Reset(s.rx) ==> s.pending == [])
  }

  /** Leaving the slot finishes a connection's intake. */
  lemma IntakeVacate(s: State)
    requires Intake(s) && !s.rx.Feeding?
    ensures Finished(s.h.received, s.h.handed, None)
  {
    hide Settled, Unfinished, Progress;
    if s.client.Some? {
      var c := s.client.value;
      if s.rx != DropSwap(ProtocolError) {
        ProgressSettles(s.h.received[c], s.h.handed[c], s.pending);
      }
    }
  }

  lemma EmptyIntake()
    ensures Unfinished([], RX_PACKET_LEN)
    ensures Settled([], []) && Progress([], [], [], [])
  {
    EmptyUnfinished(RX_PACKET_LEN);
    var none: seq<byte> := [];
    assert none + none == none;
  }

  /** With the slot empty, and the reassembler empty where it has to be, the invariant is about the past. */
  lemma IntakeEmptySlot(t: State)
    requires t.client.None? && !t.rx.Feeding?
    requires Finished(t.h.received, t.h.handed, None)
    requires Unfinished(t.pending, RX_PACKET_LEN)
    requires t.rx.Publish? ==> Untouched(t.h, t.rx.peer)
    requires Reset(t.rx) ==> t.pending == []
    ensures Intake(t)
  {
  }

  lemma IntakeOpen(h: History, f: Conn)
    requires Finished(h.received, h.handed, None)
    ensures
      var h' := h.(received := h.received[f := []], handed := h.handed[f := []]);
      Finished(h'.received, h'.handed, None) && Untouched(h', f)
  {
    hide Settled;
    EmptyIntake();
  }

  lemma IntakePublish(s: State, e: RxEnv)
    requires Intake(s) && (s.rx.Publish? || s.rx.LowerPause?) && AcceptSlot(s)
    ensures Intake(AcceptNext(s, e))
  {
    hide Settled, Progress, Unfinished;
    EmptyIntake();
  }

  lemma IntakeAccept(s: State, e: RxEnv)
    requires Intake(s) && Accepting(s.rx) && AcceptSlot(s)
    ensures Intake(AcceptNext(s, e))
  {
    if s.rx.Publish? || s.rx.LowerPause? {
      IntakePublish(s, e);
    } else if s.rx.Handshaking? {
      ShakeLedger(s, e.shake, s.rx.peer);
      ShakeLeaves(s, e.shake, s.rx.peer);
      hide ShakeNext, Intake, Finished, LiveIntake;
      IntakeShake(s, ShakeNext(s, e.shake, s.rx.peer));
    } else {
      EmptyIntake();
      IntakeVacate(s);
      IntakeOpen(s.h, s.rx.peer);
      IntakeBeforePublish(s, e);
      IntakeEmptySlot(AcceptNext(s, e));
    }
  }

  lemma IntakeShake(s: State, t: State)
    requires Intake(s) && s.rx.Handshaking? && (t.rx.Handshaking? || t.rx.Swap? || t.rx.CheckFailed?)
    requires t == s.(rx := t.rx, down := t.down, h := t.h) && t.h == s.h.(refused := t.h.refused)
    ensures Intake(t)
  {
    hide Intake;
    IntakeQuiet(s, t);
  }

  /** Until the newcomer is published the records only change when the drain ends. */
  lemma IntakeBeforePublish(s: State, e: RxEnv)
    requires Accepting(s.rx) && AcceptSlot(s) && !s.rx.Handshaking? && !s.rx.Publish? && !s.rx.LowerPause?
    requires Reset(s.rx) ==> s.pending == []
    requires Unfinished(s.pending, RX_PACKET_LEN) && Unfinished([], RX_PACKET_LEN)
    requires Finished(s.h.received, s.h.handed, None)
    requires
      var h' := s.h.(received := s.h.received[s.rx.peer := []], handed := s.h.handed[s.rx.peer := []]);
      Finished(h'.received, h'.handed, None) && Untouched(h', s.rx.peer)
    ensures
      var t := AcceptNext(s, e);
      && t.client.None? && !t.rx.Feeding?
      && Finished(t.h.received, t.h.handed, None)
      && Unfinished(t.pending, RX_PACKET_LEN)
      && (t.rx.Publish? ==> Untouched(t.h, t.rx.peer))
      && (Reset(t.rx) ==> t.pending == [])
  {
    hide Finished, Unfinished, Untouched;
    if s.rx.Drain? {
    } else {
      QuietAccept(s, e);
    }
  }

  lemma QuietAccept(s: State, e: RxEnv)
    requires Accepting(s.rx) && AcceptSlot(s) && !s.rx.Handshaking? && !s.rx.Drain? && !s.rx.Publish? && !s.rx.LowerPause?
    ensures
      var t := AcceptNext(s, e);
      && t.client.None? && t.h == s.h && !t.rx.Feeding? && !t.rx.Publish?
      && (t.pending == s.pending || t.pending == [])
      && (Reset(t.rx) ==> Reset(s.rx) || t.pending == [])
  {
    hide DrainNext;
    match s.rx
    case Swap(_) =>
    case Shut(_, _) =>
    case ResetRe(_, _) =>
    case LowerIdle(_, _) =>
    case RaisePause(_, _) =>
    case WaitIdle(_, _) =>
    case CloseOld(_, _) =>
    case ClearFailed(_) =>
  }

  lemma IntakeDrop(s: State)
    requires Intake(s) && Dropping(s.rx)
    ensures Intake(DropNext(s))
  {
    hide Settled, Progress, Unfinished, Finished;
    IntakeVacate(s);
    match s.rx
    case CheckFailed =>
    case DropSwap(_) => IntakeEmptySlot(DropNext(s));
    case DropClose(_, _) =>
  }

  lemma IntakeReceive(s: State, c: Conn, data: seq<byte>)
    requires Intake(s) && s.client == Some(c) && s.rx.Receive?
    ensures Intake(ReceiveNext(s, c, data))
  {
    hide Settled, Progress, Unfinished;
    ProgressReceive(s.h.received[c], s.h.handed[c], s.pending, data);
  }

  /** A packet more handed on for the connection in the slot. */
  lemma IntakeHanded(s: State, t: State, c: Conn)
    requires Intake(s) && s.client == Some(c) && c in s.h.received && c in t.h.handed
    requires t == s.(pending := t.pending, rx := t.rx, h := s.h.(handed := t.h.handed))
    requires t.h.handed == s.h.handed || t.h.handed == s.h.handed[c := t.h.handed[c]]
    requires Unfinished(t.pending, RX_PACKET_LEN)
    requires t.rx.Feeding? && t.rx.conn == c && Progress(s.h.received[c], t.h.handed[c], t.pending, t.rx.chunk)
    ensures Intake(t)
  {
    hide Settled, Progress, Unfinished;
  }

  lemma IntakeFeed(s: State, c: Conn, chunk: seq<byte>)
    requires Intake(s) && s.rx == Feeding(c, chunk) && chunk != []
    ensures Intake(FeedNext(s, c, chunk))
  {
    hide Settled, Progress, Unfinished, FeedOnce, Finished;
    EmptyIntake();
    ProgressFeed(s.h.received[c], s.h.handed[c], s.pending, chunk);
    match FeedOnce(s.pending, chunk)
    case FeedError =>
    case Fed(_, _, _) =>
      hide Intake;
      IntakeHanded(s, FeedNext(s, c, chunk), c);
  }

  /** Steps that touch neither the slot, the reassembler nor the records keep the invariant. */
  lemma IntakeQuiet(s: State, t: State)
    requires Intake(s)
    requires t.client == s.client && t.h.received == s.h.received && t.h.handed == s.h.handed && t.pending == s.pending
    requires Chunk(t.rx) == [] && Chunk(s.rx) == [] && !t.rx.Feeding? && !t.rx.Publish? && !Reset(t.rx)
    requires s.rx != DropSwap(ProtocolError) && t.rx != DropSwap(ProtocolError)
    ensures Intake(t)
  {
    hide Settled, Progress, Unfinished, Finished;
  }

  lemma IntakeRecv(s: State, e: RxEnv)
    requires Intake(s) && s.rx.Receive?
    ensures Intake(RecvNext(s, e))
  {
    hide Settled, Progress, Unfinished, ReceiveNext, Intake;
    if s.readable && s.polled.Some? && s.client == s.polled && e.data != [] {
      IntakeReceive(s, s.client.value, e.data[..Min(|e.data|, RX_CHUNK_LEN)]);
    } else {
      IntakeQuiet(s, RecvNext(s, e));
    }
  }

  lemma IntakeIntake(s: State, e: RxEnv)
    requires Intake(s) && !Accepting(s.rx) && !Dropping(s.rx)
    ensures Intake(IntakeNext(s, e))
  {
    hide Intake, FeedNext, RecvNext;
    match s.rx
    case Poll => IntakeQuiet(s, IntakeNext(s, e));
    case Ready(_) => IntakeQuiet(s, IntakeNext(s, e));
    case Receive => IntakeRecv(s, e);
    case Feeding(c, chunk) =>
      if chunk == [] {
        IntakeQuiet(s, IntakeNext(s, e));
      } else {
        IntakeFeed(s, c, chunk);
      }
  }
}
