/** What every step of the stream pump keeps. Each invariant is proved actor by actor. */
module BridgeInvariant {
  import opened Bytes
  import opened Bridge

  // ------------------------------------------------------------------
  // The pause/idle handshake
  // ------------------------------------------------------------------

  /** tx is at its park point: it holds no bytes and has no connection in hand. */
  predicate Parked(tx: TxPc) {
    tx.Top? || tx.StoreIdle?
  }

  predicate Parking(s: State) {
    && (s.pause <==> s.rx.WaitIdle? || Exclusive(s.rx))
    && (s.rx.RaisePause? ==> !s.idle && !s.tx.StoreIdle?)
    && (s.rx.WaitIdle? && s.idle ==> Parked(s.tx))
    && (Exclusive(s.rx) ==> Parked(s.tx))
  }

  lemma ParkingAccept(s: State, e: RxEnv)
    requires Parking(s) && TimelyStep(s, RxStep(e)) && Accepting(s.rx)
    ensures Parking(AcceptNext(s, e))
  {
  }

  /** Outside acceptClient rx leaves the flags of the handshake, the queue and tx alone,
      never publishes a client, and enters acceptClient with a new connection only. */
  predicate LoopFrame(s: State, t: State) {
    && t.pause == s.pause && t.idle == s.idle && t.sb == s.sb && t.tx == s.tx && t.cb == s.cb
    && t.l == s.l && t.h.broken == s.h.broken && t.h.failedOn == s.h.failedOn
    && (t.client == s.client || t.client.None?)
    && t.next >= s.next
    && (Accepting(t.rx) ==> t.rx == Handshaking(s.next) && t.next == s.next + 1 && t.client == s.client)
  }

  /** Polling, receiving and feeding also leave the slot and the record of failures alone. */
  predicate IntakeFrame(s: State, t: State) {
    && LoopFrame(s, t)
    && t.client == s.client && t.failed == s.failed && t.h.drops == s.h.drops
    && (t.rx.DropSwap? ==> !t.rx.why.SendFailed?)
  }

  lemma DropKeepsFrame(s: State)
    requires Dropping(s.rx)
    ensures LoopFrame(s, DropNext(s))
  {
    hide VacateNext;
    match s.rx
    case CheckFailed =>
    case DropSwap(why) => VacateKeepsFrame(s, why);
    case DropClose(_, _) =>
  }

  lemma VacateKeepsFrame(s: State, why: Reason)
    ensures LoopFrame(s, VacateNext(s, why))
  {
    hide Accepting;
    DroppingStaysInLoop(if s.client.Some? then s.client.value else 0, why);
  }

  lemma DroppingStaysInLoop(c: Conn, why: Reason)
    ensures !Accepting(AfterDrop(why)) && !Accepting(DropClose(c, why))
  {
  }

  lemma FeedKeepsFrame(s: State, c: Conn, chunk: seq<byte>)
    ensures IntakeFrame(s, FeedNext(s, c, chunk))
  {
    hide FeedOnce, LookupAll;
  }

  lemma IntakeKeepsFrame(s: State, e: RxEnv)
    requires !Accepting(s.rx) && !Dropping(s.rx)
    ensures IntakeFrame(s, IntakeNext(s, e))
  {
    hide FeedNext, PollNext, ReadyNext, RecvNext;
    match s.rx
    case Feeding(c, chunk) => FeedKeepsFrame(s, c, chunk);
    case Poll => PollKeepsFrame(s, e);
    case Ready(acceptable) => ReadyKeepsFrame(s, e, acceptable);
    case Receive => RecvKeepsFrame(s, e);
  }

  lemma PollKeepsFrame(s: State, e: RxEnv)
    requires s.rx.Poll?
    ensures IntakeFrame(s, PollNext(s, e))
  {
  }

  lemma ReadyKeepsFrame(s: State, e: RxEnv, acceptable: bool)
    ensures IntakeFrame(s, ReadyNext(s, e, acceptable))
  {
  }

  lemma RecvKeepsFrame(s: State, e: RxEnv)
    ensures IntakeFrame(s, RecvNext(s, e))
  {
  }

  lemma ParkingLoop(s: State, t: State)
    requires Parking(s) && !Accepting(s.rx) && LoopFrame(s, t)
    ensures Parking(t)
  {
  }

  lemma ParkingTx(s: State, e: TxEnv)
    requires Parking(s)
    ensures Parking(TxNext(s, e))
  {
  }

  /** Nothing is queued or about to be, and tx has nothing in hand. */
  predicate Dry(sb: seq<byte>, tx: TxPc, cb: CbPc) {
    sb == [] && CbDry(cb) && (tx.Top? || tx.StoreIdle? || tx.ClearIdle? || tx.Take?)
  }

  /** Until the newcomer is published tx is parked, or there is nothing it could get hold of. */
  predicate Calm(s: State) {
    && (s.pause <==> s.rx.WaitIdle? || Exclusive(s.rx))
    && (s.rx.RaisePause? ==> (!s.idle && !s.tx.StoreIdle?) || Dry(s.sb, s.tx, s.cb))
    && ((s.rx.WaitIdle? && s.idle) || (Exclusive(s.rx) && !s.rx.LowerPause?) ==>
          Parked(s.tx) || Dry(s.sb, s.tx, s.cb))
  }

  lemma CalmAccept(s: State, e: RxEnv)
    requires Calm(s) && HarmlessStep(s, RxStep(e)) && Accepting(s.rx)
    ensures Calm(AcceptNext(s, e))
  {
    hide CbDry;
    match s.rx
    case Handshaking(_) =>
    case Swap(_) =>
    case Shut(_, _) =>
    case ResetRe(_, _) =>
    case LowerIdle(_, _) =>
    case RaisePause(_, _) =>
    case WaitIdle(_, _) =>
    case CloseOld(_, _) =>
    case ClearFailed(_) =>
    case Drain(_) =>
    case Publish(_) =>
    case LowerPause(_) =>
  }

  lemma CalmLoop(s: State, t: State)
    requires Calm(s) && !Accepting(s.rx) && LoopFrame(s, t)
    ensures Calm(t)
  {
  }

  lemma CalmTx(s: State, e: TxEnv)
    requires Calm(s)
    ensures Calm(TxNext(s, e))
  {
    hide CbDry, SendNext;
    match s.tx
    case Top =>
    case StoreIdle =>
    case ClearIdle =>
    case Take =>
    case LoadClient(_) =>
    case Sending(c, left) => SendLeavesFlags(s, e, c, left);
    case Report(_) =>
  }

  lemma SendLeavesFlags(s: State, e: TxEnv, c: Conn, left: seq<byte>)
    ensures
      var t := SendNext(s, e, c, left);
      && t == s.(tx := t.tx, l := t.l, h := t.h)
      && t.l == s.l.(wire := t.l.wire) && t.h == s.h.(broken := t.h.broken)
      && (t.tx.Report? || t.tx.Top? || t.tx.Sending?)
  {
  }

  lemma CalmCb(s: State, pkt: seq<byte>)
    requires Calm(s) && AcceptSlot(s)
    ensures Calm(CbNext(s, pkt))
  {
    match s.cb
    case Waiting =>
    case CheckSpace(_) =>
    case Enqueue(p) =>
      assert p == [] ==> s.sb + p[..0] == s.sb;
  }

  // ------------------------------------------------------------------
  // Where every byte of the stream is
  // ------------------------------------------------------------------

  /** The bytes `from .. from + |x|` of the stream are `x`. */
  predicate At(stream: seq<byte>, from: nat, x: seq<byte>) {
    from + |x| <= |stream| && stream[from..from + |x|] == x
  }

  function InHand(tx: TxPc): seq<byte> {
    match tx
    case LoadClient(chunk) => chunk
    case Sending(_, left) => left
    case _ => []
  }

  /** The buffer holds what has not been read; tx holds the last bytes that were. */
  predicate Accounted(l: Ledger, sb: seq<byte>, hand: seq<byte>) {
    && l.taken <= |l.stream| && sb == l.stream[l.taken..]
    && |hand| <= l.taken && At(l.stream, l.taken - |hand|, hand)
  }

  /** What went out on each connection is a stretch of the stream that begins at its offset. */
  predicate Wires(l: Ledger) {
    forall c :: c in l.wire ==>
      c in l.offset && l.offset[c] + |l.wire[c]| <= l.taken && At(l.stream, l.offset[c], l.wire[c])
  }

  /** A connection has been sent everything since its offset, up to the bytes tx still holds. */
  predicate Exact(l: Ledger, broken: set<Conn>, hand: seq<byte>, c: Conn) {
    && c in l.wire && c in l.offset
    && (c !in broken ==> l.offset[c] + |l.wire[c]| + |hand| == l.taken)
  }

  predicate Flow(s: State) {
    && Accounted(s.l, s.sb, InHand(s.tx))
    && Wires(s.l)
    && (s.client.Some? ==> Exact(s.l, s.h.broken, InHand(s.tx), s.client.value))
    && (s.tx.LoadClient? ==> s.tx.chunk != [])
    && (s.tx.Sending? ==> Exact(s.l, s.h.broken, InHand(s.tx), s.tx.conn) && s.tx.left != [])
    && (s.rx.Publish? ==> Exact(s.l, s.h.broken, [], s.rx.peer))
    && (s.client.Some? && s.tx.Sending? ==> s.client.value == s.tx.conn)
  }

  lemma TakeBytes(l: Ledger, broken: set<Conn>, sb: seq<byte>, n: nat)
    requires Accounted(l, sb, []) && Wires(l) && n <= |sb|
    ensures
      var l' := l.(taken := l.taken + n);
      && Accounted(l', sb[n..], sb[..n])
      && Wires(l')
      && forall c :: Exact(l, broken, [], c) ==> Exact(l', broken, sb[..n], c)
  {
  }

  lemma SendBytes(l: Ledger, broken: set<Conn>, sb: seq<byte>, hand: seq<byte>, c: Conn, n: nat)
    requires Accounted(l, sb, hand) && Wires(l) && Exact(l, broken, hand, c) && n <= |hand|
    requires c !in broken
    ensures
      var l' := l.(wire := l.wire[c := l.wire[c] + hand[..n]]);
      Accounted(l', sb, hand[n..]) && Wires(l') && Exact(l', broken, hand[n..], c)
  {
    var from, at := l.offset[c], l.taken - |hand|;
    var sent := l.wire[c] + hand[..n];
    SplitAt(l.stream, at, hand, n);
    JoinSlices(l.stream, from, at, at + n);
    assert At(l.stream, from, sent);
  }

  /** Both halves of a stretch of the stream are where they belong. */
  lemma SplitAt(stream: seq<byte>, from: nat, x: seq<byte>, n: nat)
    requires At(stream, from, x) && n <= |x|
    ensures stream[from..from + n] == x[..n]
    ensures At(stream, from + n, x[n..])
  {
  }

  lemma DropBytes(l: Ledger, sb: seq<byte>, hand: seq<byte>, n: nat)
    requires Accounted(l, sb, hand) && n <= |hand|
    ensures Accounted(l, sb, hand[n..]) && Accounted(l, sb, [])
  {
    SplitAt(l.stream, l.taken - |hand|, hand, n);
  }

  lemma QueueBytes(l: Ledger, broken: set<Conn>, sb: seq<byte>, hand: seq<byte>, x: seq<byte>)
    requires Accounted(l, sb, hand) && Wires(l)
    ensures
      var l' := l.(queued := l.queued + [x], stream := l.stream + x);
      && Accounted(l', sb + x, hand)
      && Wires(l')
      && forall c, held :: Exact(l, broken, held, c) ==> Exact(l', broken, held, c)
  {
    var at := l.taken - |hand|;
    assert (l.stream + x)[at..l.taken] == l.stream[at..l.taken];
    assert (l.stream + x)[l.taken..] == l.stream[l.taken..] + x;
    forall c | c in l.wire
      ensures At(l.stream + x, l.offset[c], l.wire[c])
    {
      var from, to := l.offset[c], l.offset[c] + |l.wire[c]|;
      assert (l.stream + x)[from..to] == l.stream[from..to];
    }
  }

  lemma FlowTake(s: State, e: TxEnv)
    requires Flow(s) && s.tx.Take? && (s.rx.Publish? ==> s.sb == [])
    ensures Flow(TakeNext(s, e))
  {
    hide Accounted, Wires, Exact;
    TakeBytes(s.l, s.h.broken, s.sb, Min(Min(e.take, TX_CHUNK_LEN), |s.sb|));
  }

  lemma FlowSend(s: State, e: TxEnv, c: Conn, left: seq<byte>)
    requires Flow(s) && s.tx == Sending(c, left) && !s.rx.Publish?
    ensures Flow(SendNext(s, e, c, left))
  {
    hide Accounted, Wires;
    var n := if c in s.down then 0 else Min(e.sent, |left|);
    DropBytes(s.l, s.sb, left, n);
    if c !in s.h.broken {
      SendBytes(s.l, s.h.broken, s.sb, left, c, n);
    }
  }

  lemma FlowTx(s: State, e: TxEnv)
    requires Flow(s)
    requires s.rx.Publish? ==> Parked(s.tx) || Dry(s.sb, s.tx, s.cb)
    ensures Flow(TxNext(s, e))
  {
    hide Accounted, Wires, Exact, SendNext, TakeNext;
    match s.tx
    case Top =>
    case StoreIdle =>
    case ClearIdle =>
    case Report(_) =>
    case Take => FlowTake(s, e);
    case LoadClient(chunk) => DropBytes(s.l, s.sb, chunk, 0);
    case Sending(c, left) => FlowSend(s, e, c, left);
  }

  lemma FlowEnqueue(s: State, t: State, x: seq<byte>)
    requires Flow(s) && t == s.(sb := s.sb + x, cb := t.cb, l := t.l)
    requires t.l == s.l.(queued := s.l.queued + [x], stream := s.l.stream + x)
    ensures Flow(t)
  {
    hide Accounted, Wires, Exact;
    QueueBytes(s.l, s.h.broken, s.sb, InHand(s.tx), x);
  }

  lemma FlowCb(s: State, pkt: seq<byte>)
    requires Flow(s)
    ensures Flow(CbNext(s, pkt))
  {
    hide Accounted, Wires, Exact;
    if s.cb.Enqueue? {
      var room := if |s.sb| < STREAM_BUFFER_LEN then STREAM_BUFFER_LEN - |s.sb| else 0;
      FlowEnqueue(s, CbNext(s, pkt), s.cb.pkt[..Min(room, |s.cb.pkt|)]);
    } else {
      var t := CbNext(s, pkt);
      assert t == s.(cb := t.cb);
      hide CbNext;
    }
  }

  // ------------------------------------------------------------------
  // Connection numbers and the client slot
  // ------------------------------------------------------------------

  /** During acceptClient the slot is empty until the newcomer is published. */
  predicate AcceptSlot(s: State) {
    Accepting(s.rx) ==>
      && s.rx.peer < s.next
      && (s.rx.peer in s.l.wire <==> s.rx.Publish? || s.rx.LowerPause?)
      && (s.rx.LowerPause? ==> s.client == Some(s.rx.peer))
      && (!s.rx.Handshaking? && !s.rx.Swap? && !s.rx.LowerPause? ==> s.client.None?)
  }

  /** Known connections have old numbers. */
  predicate Numbered(wire: map<Conn, seq<byte>>, broken: set<Conn>, next: Conn) {
    && (forall c :: c in wire ==> c < next)
    && (forall c :: c in broken ==> c in wire)
  }

  predicate Slots(s: State) {
    Numbered(s.l.wire, s.h.broken, s.next) && AcceptSlot(s)
  }

  lemma SlotDrain(s: State, e: RxEnv, f: Conn)
    requires AcceptSlot(s) && s.rx == Drain(f)
    ensures AcceptSlot(DrainNext(s, e, f))
  {
  }

  lemma SlotShake(s: State, shake: Shake, f: Conn)
    requires AcceptSlot(s) && s.rx == Handshaking(f)
    ensures AcceptSlot(ShakeNext(s, shake, f))
  {
  }

  lemma SlotAccept(s: State, e: RxEnv)
    requires AcceptSlot(s) && Accepting(s.rx)
    ensures AcceptSlot(AcceptNext(s, e))
  {
    hide DrainNext, ShakeNext;
    match s.rx
    case Handshaking(f) => SlotShake(s, e.shake, f);
    case Swap(_) =>
    case Shut(_, _) =>
    case ResetRe(_, _) =>
    case LowerIdle(_, _) =>
    case RaisePause(_, _) =>
    case WaitIdle(_, _) =>
    case CloseOld(_, _) =>
    case ClearFailed(_) =>
    case Drain(f) => SlotDrain(s, e, f);
    case Publish(_) =>
    case LowerPause(_) =>
  }

  /** acceptClient opens at most the peer's wire, and breaks none. */
  lemma AcceptNumbers(s: State, e: RxEnv)
    requires Accepting(s.rx)
    ensures
      var t := AcceptNext(s, e);
      && t.next == s.next && t.h.broken == s.h.broken
      && (t.l.wire == s.l.wire || t.l.wire == s.l.wire[s.rx.peer := []])
  {
    if !s.rx.Drain? {
      AcceptLedger(s, e);
    }
  }

  /** Outside the drain acceptClient leaves ledger, buffer, tx and callback alone. */
  predicate LedgerKept(s: State, t: State) {
    && t.l == s.l && t.sb == s.sb && t.cb == s.cb && t.tx == s.tx && t.next == s.next && t.h.broken == s.h.broken
    && t.h.received == s.h.received && t.h.handed == s.h.handed
  }

  lemma EvictLedger(s: State, e: RxEnv)
    requires s.rx.Swap? || s.rx.Shut? || s.rx.ResetRe? || s.rx.LowerIdle? || s.rx.RaisePause? || s.rx.WaitIdle?
    ensures LedgerKept(s, AcceptNext(s, e))
  {
    hide DrainNext, ShakeNext;
  }

  lemma TakeOverLedger(s: State, e: RxEnv)
    requires s.rx.CloseOld? || s.rx.ClearFailed? || s.rx.Publish? || s.rx.LowerPause?
    ensures LedgerKept(s, AcceptNext(s, e))
  {
    hide DrainNext, ShakeNext;
  }

  lemma AcceptLedger(s: State, e: RxEnv)
    requires Accepting(s.rx) && !s.rx.Drain?
    ensures LedgerKept(s, AcceptNext(s, e))
  {
    if s.rx.Handshaking? {
      ShakeLedger(s, e.shake, s.rx.peer);
      hide ShakeNext;
    } else {
      hide AcceptNext;
      if Exclusive(s.rx) {
        TakeOverLedger(s, e);
      } else {
        EvictLedger(s, e);
      }
    }
  }

  lemma ShakeLedger(s: State, shake: Shake, f: Conn)
    ensures
      var t := ShakeNext(s, shake, f);
      && t == s.(rx := t.rx, down := t.down, h := t.h)
      && t.h == s.h.(refused := t.h.refused)
  {
  }

  lemma ShakeLeaves(s: State, shake: Shake, f: Conn)
    requires s.rx == Handshaking(f)
    ensures var rx := ShakeNext(s, shake, f).rx; rx.Handshaking? || rx.Swap? || rx.CheckFailed?
  {
  }

  lemma SlotsAccept(s: State, e: RxEnv)
    requires Slots(s) && Accepting(s.rx)
    ensures Slots(AcceptNext(s, e))
  {
    hide AcceptSlot, AcceptNext, Accepting;
    SlotAccept(s, e);
    AcceptNumbers(s, e);
    PeerIsOld(s);
  }

  lemma PeerIsOld(s: State)
    requires AcceptSlot(s) && Accepting(s.rx)
    ensures s.rx.peer < s.next
  {
  }

  lemma SlotsLoop(s: State, t: State)
    requires Slots(s) && LoopFrame(s, t)
    requires !Accepting(s.rx)
    ensures Slots(t)
  {
  }

  /** tx opens no connection and queues nothing; it can only find a connection broken. */
  predicate TxFrame(s: State, t: State) {
    && t.client == s.client && t.rx == s.rx && t.next == s.next && t.cb == s.cb && |t.sb| <= |s.sb|
    && t.l.queued == s.l.queued && t.l.stream == s.l.stream && t.l.start == s.l.start && t.l.offset == s.l.offset
    && t.l.wire.Keys == s.l.wire.Keys
    && s.h.broken <= t.h.broken <= s.h.broken + (if s.tx.Sending? then {s.tx.conn} else {})
    && t.h.drops == s.h.drops && t.h.received == s.h.received && t.h.handed == s.h.handed && t.pending == s.pending
  }

  lemma SendKeepsFrame(s: State, e: TxEnv, c: Conn, left: seq<byte>)
    requires s.tx == Sending(c, left) && c in s.l.wire
    ensures TxFrame(s, SendNext(s, e, c, left))
  {
    hide Lookup;
    var n := if c in s.down then 0 else Min(e.sent, |left|);
    KeysKept(s.l.wire, c, Lookup(s.l.wire, c) + left[..n]);
  }

  lemma KeysKept(wire: map<Conn, seq<byte>>, c: Conn, bytes: seq<byte>)
    requires c in wire
    ensures wire[c := bytes].Keys == wire.Keys
  {
  }

  lemma TxKeepsFrame(s: State, e: TxEnv)
    requires s.tx.Sending? ==> s.tx.conn in s.l.wire
    ensures TxFrame(s, TxNext(s, e))
  {
    hide SendNext;
    match s.tx
    case Top =>
    case StoreIdle =>
    case ClearIdle =>
    case Take =>
    case LoadClient(_) =>
    case Sending(c, left) => SendKeepsFrame(s, e, c, left);
    case Report(_) =>
  }

  lemma SlotsTx(s: State, t: State)
    requires Slots(s) && TxFrame(s, t)
    requires s.tx.Sending? ==> s.tx.conn in s.l.wire
    ensures Slots(t)
  {
    forall c | c in t.l.wire ensures c < t.next {
      assert c in s.l.wire.Keys;
    }
    forall c | c in t.h.broken ensures c in t.l.wire {
      assert c in s.l.wire.Keys;
    }
    assert forall c :: c in t.l.wire <==> c in t.l.wire.Keys;
    assert forall c :: c in s.l.wire <==> c in s.l.wire.Keys;
  }

  /** The drain has ended: a new connection starts where reading stopped. */
  lemma OpenWire(l: Ledger, broken: set<Conn>, sb: seq<byte>, f: Conn)
    requires Accounted(l, sb, []) && Wires(l) && sb == [] && f !in broken
    ensures
      var l' := l.(start := l.start[f := |l.queued|], offset := l.offset[f := l.taken], wire := l.wire[f := []]);
      && Accounted(l', sb, [])
      && Wires(l')
      && Exact(l', broken, [], f)
      && l.taken == |l.stream|
  {
  }

  lemma FlowDrain(s: State, e: RxEnv, f: Conn)
    requires Calm(s) && Slots(s) && Flow(s) && s.rx == Drain(f)
    ensures Flow(DrainNext(s, e, f))
  {
    hide Accounted, Wires, Exact;
    assert f !in s.h.broken;
    if s.sb == [] {
      OpenWire(s.l, s.h.broken, s.sb, f);
    } else {
      var n := Min(Min(e.take + 1, TX_CHUNK_LEN), |s.sb|);
      TakeBytes(s.l, s.h.broken, s.sb, n);
      DropBytes(s.l.(taken := s.l.taken + n), s.sb[n..], s.sb[..n], n);
    }
  }

  lemma FlowAccept(s: State, e: RxEnv)
    requires Calm(s) && Slots(s) && Flow(s) && Accepting(s.rx)
    ensures Flow(AcceptNext(s, e))
  {
    hide Accounted, Wires, Exact, DrainNext, Numbered;
    match s.rx
    case Handshaking(_) =>
    case Swap(_) =>
    case Shut(_, _) =>
    case ResetRe(_, _) =>
    case LowerIdle(_, _) =>
    case RaisePause(_, _) =>
    case WaitIdle(_, _) =>
    case CloseOld(_, _) =>
    case ClearFailed(_) =>
    case Drain(f) => FlowDrain(s, e, f);
    case Publish(_) =>
    case LowerPause(_) =>
  }

  lemma FlowLoop(s: State, t: State)
    requires Flow(s) && LoopFrame(s, t)
    ensures Flow(t)
  {
    hide Accounted, Wires, Exact;
  }
}
