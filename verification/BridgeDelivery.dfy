/** Packet boundaries in the queue, room for whole packets, and failed sends. */
module BridgeDelivery {
  import opened Bytes
  import opened H4
  import opened Bridge
  import opened BridgeInvariant

  // ------------------------------------------------------------------
  // Packet boundaries
  // ------------------------------------------------------------------

  /** A connection's bytes begin where a packet begins. */
  predicate StartsOnPacket(l: Ledger, c: Conn) {
    && c in l.start && c in l.offset
    && l.start[c] <= |l.queued| && l.offset[c] == |Flatten(l.queued[..l.start[c]])|
  }

  predicate Boundaries(l: Ledger) {
    && l.stream == Flatten(l.queued)
    && forall c :: c in l.wire ==> StartsOnPacket(l, c)
  }

  lemma BoundariesQueue(l: Ledger, x: seq<byte>)
    requires Boundaries(l)
    ensures Boundaries(l.(queued := l.queued + [x], stream := l.stream + x))
  {
    hide Flatten;
    FlattenSnoc(l.queued, x);
    forall c | c in l.wire
      ensures StartsOnPacket(l.(queued := l.queued + [x], stream := l.stream + x), c)
    {
      assert StartsOnPacket(l, c);
      assert (l.queued + [x])[..l.start[c]] == l.queued[..l.start[c]];
    }
  }

  /** The drain ends with everything read, so the next connection starts at a packet. */
  lemma BoundariesOpen(l: Ledger, f: Conn)
    requires Boundaries(l) && l.taken == |l.stream|
    ensures Boundaries(l.(start := l.start[f := |l.queued|], offset := l.offset[f := l.taken], wire := l.wire[f := []]))
  {
    hide Flatten;
    assert l.queued[..|l.queued|] == l.queued;
  }

  lemma BoundariesRekey(l: Ledger, l': Ledger)
    requires Boundaries(l)
    requires l'.queued == l.queued && l'.stream == l.stream && l'.start == l.start && l'.offset == l.offset
    requires l'.wire.Keys == l.wire.Keys
    ensures Boundaries(l')
  {
    hide Flatten;
    forall c | c in l'.wire
      ensures StartsOnPacket(l', c)
    {
      assert c in l.wire.Keys;
      assert StartsOnPacket(l, c);
    }
  }

  lemma BoundariesTx(s: State, t: State)
    requires Boundaries(s.l) && TxFrame(s, t)
    ensures Boundaries(t.l)
  {
    hide Boundaries;
    BoundariesRekey(s.l, t.l);
  }

  lemma BoundariesAccept(s: State, e: RxEnv)
    requires Boundaries(s.l) && Flow(s) && Calm(s) && Accepting(s.rx)
    ensures Boundaries(AcceptNext(s, e).l)
  {
    hide Boundaries, Wires, Exact;
    if s.rx.Drain? {
      if s.sb == [] {
        BoundariesOpen(s.l, s.rx.peer);
      } else {
        BoundariesRekey(s.l, AcceptNext(s, e).l);
      }
    } else {
      AcceptLedger(s, e);
    }
  }

  // ------------------------------------------------------------------
  // Room: only whole packets enter the queue
  // ------------------------------------------------------------------

  /** The space the callback saw is still there when it writes: readers only make more. */
  predicate Room(sb: seq<byte>, cb: CbPc) {
    && |sb| <= STREAM_BUFFER_LEN
    && (cb.Enqueue? ==> |sb| + |cb.pkt| <= STREAM_BUFFER_LEN)
  }

  lemma RoomCb(s: State, pkt: seq<byte>)
    requires Room(s.sb, s.cb)
    ensures Room(CbNext(s, pkt).sb, CbNext(s, pkt).cb)
    ensures s.cb.Enqueue? ==>
      && CbNext(s, pkt).sb == s.sb + s.cb.pkt
      && CbNext(s, pkt).l.queued == s.l.queued + [s.cb.pkt]
  {
    if s.cb.Enqueue? {
      assert s.cb.pkt[..|s.cb.pkt|] == s.cb.pkt;
    }
  }

  lemma RoomAccept(s: State, e: RxEnv)
    requires Room(s.sb, s.cb) && Accepting(s.rx)
    ensures Room(AcceptNext(s, e).sb, AcceptNext(s, e).cb)
  {
    if !s.rx.Drain? {
      AcceptLedger(s, e);
    }
  }

  /** The queue holds framed packets as long as the controller hands over framed packets. */
  predicate QueueFramed(queued: seq<seq<byte>>, cb: CbPc) {
    && AllFramed(queued, MAX_PACKET_LEN)
    && (cb.CheckSpace? || cb.Enqueue? ==> Framed(cb.pkt, MAX_PACKET_LEN))
  }

  lemma FramedCb(s: State, pkt: seq<byte>)
    requires Room(s.sb, s.cb) && QueueFramed(s.l.queued, s.cb) && Framed(pkt, MAX_PACKET_LEN)
    ensures QueueFramed(CbNext(s, pkt).l.queued, CbNext(s, pkt).cb)
  {
    hide Framed;
    RoomCb(s, pkt);
  }

  // ------------------------------------------------------------------
  // Failed sends
  // ------------------------------------------------------------------

  predicate DropsJustified(drops: seq<(Conn, Reason)>, broken: set<Conn>) {
    forall i :: 0 <= i < |drops| && drops[i].1.SendFailed? ==> drops[i].0 == drops[i].1.on && drops[i].0 in broken
  }

  /** tx is neither sending nor about to report a failure. */
  predicate Silent(tx: TxPc) {
    !tx.Sending? && !tx.Report?
  }

  /** Until the newcomer is published tx is silent, also when it is not parked. */
  predicate Mute(s: State) {
    && (s.pause <==> s.rx.WaitIdle? || Exclusive(s.rx))
    && (s.rx.RaisePause? ==> (!s.idle && !s.tx.StoreIdle?) || Silent(s.tx))
    && ((s.rx.WaitIdle? && s.idle) || (Exclusive(s.rx) && !s.rx.LowerPause?) ==> Silent(s.tx))
  }

  lemma MuteAccept(s: State, e: RxEnv)
    requires Mute(s) && Accepting(s.rx)
    ensures Mute(AcceptNext(s, e))
  {
    match s.rx
    case Handshaking(_) =>
    case Swap(_) =>
    case Shut(_, _) =>
    case ResetRe(_, _) =>
    case LowerIdle(_, _) =>
    case RaisePause(_, _) =>
    case WaitIdle(_, _) =>
    case CloseOld(_, _) =>
    case ClearFailed(_) =>
    case Drain(_) =>
    case Publish(_) =>
    case LowerPause(_) =>
  }

  lemma MuteLoop(s: State, t: State)
    requires Mute(s) && !Accepting(s.rx) && LoopFrame(s, t)
    ensures Mute(t)
  {
  }

  lemma MuteTx(s: State, e: TxEnv)
    requires Mute(s) && AcceptSlot(s)
    ensures Mute(TxNext(s, e))
  {
    hide SendNext;
    match s.tx
    case Top =>
    case StoreIdle =>
    case ClearIdle =>
    case Take =>
    case LoadClient(_) =>
    case Sending(c, left) => SendLeavesFlags(s, e, c, left);
    case Report(_) =>
  }

  /** A failure that has been reported, or is about to be, is about the client in the slot; so is a send. */
  predicate Failures(s: State) {
    && DropsJustified(s.h.drops, s.h.broken)
    && (s.failed ==> s.h.failedOn in s.h.broken)
    && (s.tx.Report? ==> s.tx.conn in s.h.broken)
    && (s.client.Some? && s.failed ==> s.client == Some(s.h.failedOn))
    && (s.client.Some? && (s.tx.Report? || s.tx.Sending?) ==> s.client == Some(s.tx.conn))
    && (s.rx.Drain? || s.rx.Publish? ==> !s.failed)
    && (s.rx.DropSwap? && s.rx.why.SendFailed? ==>
          s.rx.why.on in s.h.broken && (s.client.Some? ==> s.client == Some(s.rx.why.on)))
  }

  lemma FailuresSend(s: State, e: TxEnv, c: Conn, left: seq<byte>)
    requires Failures(s) && s.tx == Sending(c, left)
    ensures Failures(SendNext(s, e, c, left))
  {
    hide Min;
    if c in s.down || Min(e.sent, |left|) == 0 {
      MoreBroken(s.h.drops, s.h.broken, c);
    }
    hide DropsJustified;
  }

  lemma MoreBroken(drops: seq<(Conn, Reason)>, broken: set<Conn>, c: Conn)
    requires DropsJustified(drops, broken)
    ensures DropsJustified(drops, broken + {c})
  {
  }

  lemma FailuresTx(s: State, e: TxEnv)
    requires Failures(s) && Mute(s)
    ensures Failures(TxNext(s, e))
  {
    hide SendNext, TakeNext, DropsJustified;
    match s.tx
    case Top =>
    case StoreIdle =>
    case ClearIdle =>
    case Take => TakeLeavesRecords(s, e);
    case LoadClient(_) =>
    case Sending(c, left) => FailuresSend(s, e, c, left);
    case Report(_) =>
  }

  lemma TakeLeavesRecords(s: State, e: TxEnv)
    ensures var t := TakeNext(s, e); t == s.(sb := t.sb, tx := t.tx, l := t.l) && (t.tx.Top? || t.tx.LoadClient?)
  {
  }

  lemma FailuresAccept(s: State, e: RxEnv)
    requires Failures(s) && Mute(s) && AcceptSlot(s) && Accepting(s.rx)
    ensures Failures(AcceptNext(s, e))
  {
    hide DropsJustified, DrainNext, ShakeNext;
    match s.rx
    case Handshaking(f) =>
      ShakeLedger(s, e.shake, f);
      ShakeLeaves(s, e.shake, f);
    case Swap(_) =>
    case Shut(_, _) =>
    case ResetRe(_, _) =>
    case LowerIdle(_, _) =>
    case RaisePause(_, _) =>
    case WaitIdle(_, _) =>
    case CloseOld(_, _) =>
    case ClearFailed(_) =>
    case Drain(f) => DrainLeavesFlags(s, e, f);
    case Publish(_) =>
    case LowerPause(_) =>
  }

  lemma DrainLeavesFlags(s: State, e: RxEnv, f: Conn)
    requires s.rx == Drain(f)
    ensures
      var t := DrainNext(s, e, f);
      && t == s.(rx := t.rx, sb := t.sb, l := t.l, h := t.h) && (t.rx.Drain? || t.rx.Publish?)
      && t.h == s.h.(received := t.h.received, handed := t.h.handed)
  {
  }

  lemma FailuresDrop(s: State)
    requires Failures(s) && Dropping(s.rx)
    ensures Failures(DropNext(s))
  {
    match s.rx
    case CheckFailed =>
    case DropSwap(_) =>
    case DropClose(_, _) =>
  }

  lemma FailuresIntake(s: State, t: State)
    requires Failures(s) && IntakeFrame(s, t)
    ensures Failures(t)
  {
    hide DropsJustified;
  }
}
