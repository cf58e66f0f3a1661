/** What rx takes in and whom it drops, in every schedule, and why its wait for tx comes to an end. */
module BridgeProgress {
  import opened Bytes
  import opened H4
  import opened Bridge
  import opened BridgeInvariant
  import opened BridgeIntake
  import opened BridgeDelivery
  import opened BridgeTheorems
  import opened BridgeRefusal

  // ------------------------------------------------------------------
  // Bytes read
  // ------------------------------------------------------------------

  /** The connection that the last poll found readable, as a schedule shows it. */
  function Polled(s: State, e: RxEnv, known: Option<Conn>): Option<Conn> {
    if !s.rx.Poll? || e.pollFailed then known else if e.readable then s.client else None
  }

  /** What this action of rx reads from c: at most 1024 bytes, if c was readable and is still the client. */
  function Piece(s: State, e: RxEnv, known: Option<Conn>, c: Conn): seq<byte> {
    if s.rx.Receive? && known == Some(c) && s.client == Some(c) then e.data[..Min(|e.data|, 1024)] else []
  }

  /** Everything a schedule reads from c. */
  function Reads(s: State, schedule: seq<Action>, known: Option<Conn>, c: Conn): seq<byte>
    decreases |schedule|
  {
    if schedule == [] then []
    else
      var a, rest := schedule[0], schedule[1..];
      if !a.RxStep? then Reads(Step(s, a), rest, known, c)
      else Piece(s, a.rx, known, c) + Reads(Step(s, a), rest, Polled(s, a.rx, known), c)
  }

  function Known(s: State): Option<Conn> {
    if s.readable then s.polled else None
  }

  /** rx's two locals change with a poll only. */
  lemma KnownAccept(s: State, e: RxEnv)
    requires Accepting(s.rx)
    ensures var t := AcceptNext(s, e); t.readable == s.readable && t.polled == s.polled
  {
    hide DrainNext, ShakeNext;
    match s.rx
    case Handshaking(f) => ShakeLedger(s, e.shake, f);
    case Swap(_) =>
    case Shut(_, _) =>
    case ResetRe(_, _) =>
    case LowerIdle(_, _) =>
    case RaisePause(_, _) =>
    case WaitIdle(_, _) =>
    case CloseOld(_, _) =>
    case ClearFailed(_) =>
    case Drain(f) => DrainLeavesFlags(s, e, f);
    case Publish(_) =>
    case LowerPause(_) =>
  }

  /** The record of what was received from c, which a drain for c starts. */
  lemma ReceivedAccept(s: State, e: RxEnv, c: Conn)
    requires Accepting(s.rx) && AcceptSlot(s) && Recorded(s.l, s.h)
    ensures Lookup(AcceptNext(s, e).h.received, c) == Lookup(s.h.received, c)
  {
    if s.rx.Drain? {
      assert s.rx.peer !in s.l.wire.Keys;
      assert s.rx.peer !in s.h.received;
    } else {
      AcceptLedger(s, e);
    }
  }

  lemma ReceivedDrop(s: State)
    requires Dropping(s.rx)
    ensures var t := DropNext(s); t.h.received == s.h.received && t.readable == s.readable && t.polled == s.polled
  {
    match s.rx
    case CheckFailed =>
    case DropSwap(_) =>
    case DropClose(_, _) =>
  }

  lemma ReceivedRecv(s: State, e: RxEnv, c: Conn)
    requires s.rx.Receive?
    ensures
      var t := RecvNext(s, e);
      && Lookup(t.h.received, c) == Lookup(s.h.received, c) + Piece(s, e, Known(s), c)
      && t.readable == s.readable && t.polled == s.polled
  {
    assert Lookup(s.h.received, c) + [] == Lookup(s.h.received, c);
  }

  lemma KnownPoll(s: State, e: RxEnv)
    requires s.rx.Poll?
    ensures var t := PollNext(s, e); t.h == s.h && Known(t) == Polled(s, e, Known(s))
  {
  }

  lemma KnownReady(s: State, e: RxEnv, acceptable: bool)
    ensures var t := ReadyNext(s, e, acceptable); t.h == s.h && t.readable == s.readable && t.polled == s.polled
  {
  }

  lemma ReceivedIntake(s: State, e: RxEnv, c: Conn)
    requires !Accepting(s.rx) && !Dropping(s.rx)
    ensures
      var t := IntakeNext(s, e);
      && Lookup(t.h.received, c) == Lookup(s.h.received, c) + Piece(s, e, Known(s), c)
      && Known(t) == Polled(s, e, Known(s))
  {
    assert Lookup(s.h.received, c) + [] == Lookup(s.h.received, c);
    hide RecvNext, FeedNext, PollNext, ReadyNext, Lookup;
    match s.rx
    case Poll => KnownPoll(s, e);
    case Ready(acceptable) => KnownReady(s, e, acceptable);
    case Receive => ReceivedRecv(s, e, c);
    case Feeding(d, chunk) => FeedLeavesReceived(s, d, chunk);
  }

  lemma FeedLeavesReceived(s: State, c: Conn, chunk: seq<byte>)
    ensures var t := FeedNext(s, c, chunk); t.h.received == s.h.received && t.readable == s.readable && t.polled == s.polled
  {
    hide FeedOnce, LookupAll;
  }

  lemma ReceivedRx(s: State, e: RxEnv, c: Conn)
    requires Base(s) && Recorded(s.l, s.h)
    ensures
      var t := RxNext(s, e);
      && Lookup(t.h.received, c) == Lookup(s.h.received, c) + Piece(s, e, Known(s), c)
      && Known(t) == Polled(s, e, Known(s))
  {
    SlotsGiveSlot(s);
    hide AcceptNext, DropNext, IntakeNext, Lookup, Base, Recorded, AcceptSlot;
    assert Lookup(s.h.received, c) + [] == Lookup(s.h.received, c);
    if Accepting(s.rx) {
      KnownAccept(s, e);
      ReceivedAccept(s, e, c);
    } else if Dropping(s.rx) {
      ReceivedDrop(s);
    } else {
      ReceivedIntake(s, e, c);
    }
  }

  lemma {:induction false} ReceivedExec(s: State, schedule: seq<Action>, c: Conn)
    requires Base(s) && Recorded(s.l, s.h)
    ensures Lookup(Exec(s, schedule).h.received, c) == Lookup(s.h.received, c) + Reads(s, schedule, Known(s), c)
    decreases |schedule|
  {
    hide Base, Recorded, Lookup, Piece, Polled, RxNext, TxNext, CbNext;
    if schedule == [] {
      assert Lookup(s.h.received, c) + [] == Lookup(s.h.received, c);
    } else {
      var a, rest := schedule[0], schedule[1..];
      match a {
        case RxStep(e) =>
          ReceivedRx(s, e, c);
          Assoc(Lookup(s.h.received, c), Piece(s, e, Known(s), c), Reads(Step(s, a), rest, Known(Step(s, a)), c));
        case TxStep(e) => TxKeepsRxPart(s, e);
        case CbStep(pkt) => CbKeepsRxPart(s, pkt);
      }
      BaseStep(s, a);
      RecordedStep(s, a);
      ReceivedExec(Step(s, a), rest, c);
    }
  }

  /** In every schedule: what counts as received on a connection is exactly what its reads returned while it was the
      client, piece by piece; and the packets handed on are the parse of that. */
  lemma ReceivedIsRead(schedule: seq<Action>, c: Conn)
    ensures
      var s, read := Exec(INITIAL, schedule), Reads(INITIAL, schedule, None, c);
      && Lookup(s.h.received, c) == read
      && (c in s.h.received && !(s.rx.Feeding? && s.rx.conn == c) ==>
            c in s.h.handed && s.h.handed[c] == Parse(read, 1026).packets)
  {
    BaseInitial();
    assert Recorded(INITIAL.l, INITIAL.h) && Known(INITIAL) == None && Lookup(INITIAL.h.received, c) == [];
    hide Exec, Reads, Parse, Recorded, Base;
    ReceivedExec(INITIAL, schedule, c);
    assert [] + Reads(INITIAL, schedule, None, c) == Reads(INITIAL, schedule, None, c);
    if c in Exec(INITIAL, schedule).h.received {
      HandedIsParse(schedule, c);
    }
  }

  // ------------------------------------------------------------------
  // Dropping
  // ------------------------------------------------------------------

  predicate NoRx(schedule: seq<Action>) {
    forall i :: 0 <= i < |schedule| ==> !schedule[i].RxStep?
  }

  /** While rx does not move its part stays as it is, and a reported failure stays reported. */
  lemma {:induction false} RxPartMeanwhile(s: State, schedule: seq<Action>)
    requires NoRx(schedule)
    ensures RxPartKept(s, Exec(s, schedule)) && (s.failed ==> Exec(s, schedule).failed)
    decreases |schedule|
  {
    if schedule == [] {
      Unchanged(s);
    } else {
      match schedule[0] {
        case TxStep(e) =>
          TxKeepsRxPart(s, e);
          TxKeepsFailed(s, e);
        case CbStep(pkt) =>
          CbKeepsRxPart(s, pkt);
          CbFrame(s, pkt);
      }
      hide TxNext, CbNext;
      RxPartMeanwhile(Step(s, schedule[0]), schedule[1..]);
    }
  }

  lemma TxKeepsFailed(s: State, e: TxEnv)
    ensures s.failed ==> TxNext(s, e).failed
  {
    hide SendNext;
    match s.tx
    case Top =>
    case StoreIdle =>
    case ClearIdle =>
    case Take =>
    case LoadClient(_) =>
    case Sending(c, left) => SendLeavesFlags(s, e, c, left);
    case Report(_) =>
  }

  /** Waiting for others, then one action of rx. */
  function Turn(s: State, quiet: seq<Action>, e: RxEnv): State {
    RxNext(Exec(s, quiet), e)
  }

  /** dropClient, with anything going on beside it: the slot is empty, the connection closed, the drop on record. */
  lemma DropEmptiesSlot(s: State, q1: seq<Action>, e1: RxEnv, q2: seq<Action>, e2: RxEnv)
    requires s.rx.DropSwap? && s.client.Some? && NoRx(q1) && NoRx(q2)
    ensures
      var t := Turn(Turn(s, q1, e1), q2, e2);
      && t.client.None? && s.client.value in t.down && t.h.drops == s.h.drops + [(s.client.value, s.rx.why)]
      && t.pending == s.pending
      && t.rx == if s.rx.why.SendFailed? then Receive else Poll
  {
    RxPartMeanwhile(s, q1);
    hide Exec;
    var s1 := Turn(s, q1, e1);
    assert s1.rx == DropClose(s.client.value, s.rx.why) && s1.client.None?;
    RxPartMeanwhile(s1, q2);
  }

  /** A failure that tx has reported costs the client its slot before rx receives again. */
  lemma ReportedFailureEmptiesSlot(before: seq<Action>, q1: seq<Action>, e1: RxEnv, q2: seq<Action>, e2: RxEnv,
                                   q3: seq<Action>, e3: RxEnv)
    requires NoRx(q1) && NoRx(q2) && NoRx(q3)
    requires var s := Exec(INITIAL, before); s.rx.CheckFailed? && s.failed && s.client.Some?
    ensures
      var s := Exec(INITIAL, before);
      var t := Turn(Turn(Turn(s, q1, e1), q2, e2), q3, e3);
      t.client.None? && s.client.value in t.down && t.rx.Receive? && !Turn(s, q1, e1).failed
  {
    var s := Exec(INITIAL, before);
    RxPartMeanwhile(s, q1);
    hide Exec;
    var s1 := Turn(s, q1, e1);
    assert s1.rx.DropSwap? && s1.rx.why.SendFailed? && s1.client == s.client;
    DropEmptiesSlot(s1, q2, e2, q3, e3);
  }

  predicate NoTx(schedule: seq<Action>) {
    forall i :: 0 <= i < |schedule| ==> !schedule[i].TxStep?
  }

  lemma RxKeepsTx(s: State, e: RxEnv)
    ensures RxNext(s, e).tx == s.tx && RxNext(s, e).h.broken == s.h.broken
  {
    hide AcceptNext, DropNext, IntakeNext;
    if Accepting(s.rx) {
      AcceptClient(s, e);
      AcceptNumbers(s, e);
    } else if Dropping(s.rx) {
      DropKeepsFrame(s);
    } else {
      IntakeKeepsFrame(s, e);
    }
  }

  lemma {:induction false} TxMeanwhile(s: State, schedule: seq<Action>)
    requires NoTx(schedule)
    ensures Exec(s, schedule).tx == s.tx && Exec(s, schedule).h.broken == s.h.broken
    decreases |schedule|
  {
    if schedule != [] {
      match schedule[0] {
        case RxStep(e) => RxKeepsTx(s, e);
        case CbStep(pkt) => CbFrame(s, pkt);
      }
      hide RxNext, CbNext;
      TxMeanwhile(Step(s, schedule[0]), schedule[1..]);
    }
  }

  /** A send that fails, because the connection is gone or takes nothing, is on record at once and reported by tx's next
      step, whatever rx and the callback do in between. */
  lemma FailedSendIsReported(s: State, e1: TxEnv, others: seq<Action>, e2: TxEnv)
    requires s.tx.Sending? && s.tx.left != [] && (s.tx.conn in s.down || e1.sent == 0) && NoTx(others)
    ensures
      var t := TxNext(Exec(TxNext(s, e1), others), e2);
      t.failed && t.h.failedOn == s.tx.conn && s.tx.conn in t.h.broken && t.tx.Top?
  {
    var s1 := TxNext(s, e1);
    assert s1.tx == Report(s.tx.conn) && s.tx.conn in s1.h.broken;
    TxMeanwhile(s1, others);
    hide Exec;
  }

  /** A send that succeeds goes on with the rest, or is done; nothing is reported. */
  lemma SendGoesOn(s: State, e: TxEnv)
    requires s.tx.Sending? && s.tx.left != [] && s.tx.conn !in s.down && e.sent > 0
    ensures
      var t, n := TxNext(s, e), Min(e.sent, |s.tx.left|);
      && t.failed == s.failed && t.h == s.h
      && t.tx == if n == |s.tx.left| then Top else Sending(s.tx.conn, s.tx.left[n..])
  {
  }

  /** So does the end of the host's stream. */
  lemma EmptyReadEmptiesSlot(s: State, q1: seq<Action>, e1: RxEnv, q2: seq<Action>, e2: RxEnv, q3: seq<Action>, e3: RxEnv)
    requires NoRx(q1) && NoRx(q2) && NoRx(q3)
    requires s.rx.Receive? && s.readable && s.client.Some? && s.polled == s.client && e1.data == []
    ensures
      var t := Turn(Turn(Turn(s, q1, e1), q2, e2), q3, e3);
      t.client.None? && s.client.value in t.down && t.rx.Poll?
  {
    RxPartMeanwhile(s, q1);
    hide Exec;
    var s1 := Turn(s, q1, e1);
    assert s1.rx == DropSwap(HostClosed) && s1.client == s.client;
    DropEmptiesSlot(s1, q2, e2, q3, e3);
  }

  /** And so does a malformed packet, which also empties the reassembler. */
  lemma BadPacketEmptiesSlot(s: State, q1: seq<Action>, e1: RxEnv, q2: seq<Action>, e2: RxEnv, q3: seq<Action>, e3: RxEnv)
    requires NoRx(q1) && NoRx(q2) && NoRx(q3)
    requires s.rx.Feeding? && s.rx.chunk != [] && s.client.Some? && TotalLen(s.pending + s.rx.chunk, RX_PACKET_LEN).Bad?
    ensures
      var t := Turn(Turn(Turn(s, q1, e1), q2, e2), q3, e3);
      t.client.None? && s.client.value in t.down && t.rx.Poll? && t.pending == []
  {
    RxPartMeanwhile(s, q1);
    hide Exec, TotalLen;
    var s1 := Turn(s, q1, e1);
    assert s1.rx == DropSwap(ProtocolError) && s1.client == s.client && s1.pending == [];
    DropEmptiesSlot(s1, q2, e2, q3, e3);
  }

  // ------------------------------------------------------------------
  // rx does not wait forever
  // ------------------------------------------------------------------

  /** A connection that has left the slot is shut down before rx waits for tx; what tx may still be sending on is the
      client, closed, or about to be. */
  predicate Evicted(s: State) {
    && (s.rx.ResetRe? || s.rx.LowerIdle? || s.rx.RaisePause? || s.rx.WaitIdle? || s.rx.CloseOld? ==>
          AsSet(s.rx.prev) <= s.down)
    && (s.tx.Sending? ==> s.client == Some(s.tx.conn) || s.tx.conn in s.down || Prev(s.rx) == Some(s.tx.conn))
  }

  lemma EvictedEvict(s: State, e: RxEnv)
    requires Evicted(s)
    requires s.rx.Swap? || s.rx.Shut? || s.rx.ResetRe? || s.rx.LowerIdle? || s.rx.RaisePause? || s.rx.WaitIdle?
    ensures Evicted(AcceptNext(s, e))
  {
    hide ShakeNext, DrainNext;
    match s.rx
    case Swap(_) =>
    case Shut(_, _) =>
    case ResetRe(_, _) =>
    case LowerIdle(_, _) =>
    case RaisePause(_, _) =>
    case WaitIdle(_, _) =>
  }

  lemma EvictedTakeOver(s: State, e: RxEnv)
    requires Evicted(s) && AcceptSlot(s)
    requires s.rx.CloseOld? || s.rx.ClearFailed? || s.rx.Publish? || s.rx.LowerPause?
    ensures Evicted(AcceptNext(s, e))
  {
    hide ShakeNext, DrainNext;
    match s.rx
    case CloseOld(_, _) =>
    case ClearFailed(_) =>
    case Publish(_) =>
    case LowerPause(_) =>
  }

  lemma EvictedShake(s: State, shake: Shake, f: Conn)
    requires Evicted(s) && s.rx == Handshaking(f)
    ensures Evicted(ShakeNext(s, shake, f))
  {
  }

  lemma EvictedAccept(s: State, e: RxEnv)
    requires Evicted(s) && AcceptSlot(s) && Accepting(s.rx)
    ensures Evicted(AcceptNext(s, e))
  {
    if s.rx.Handshaking? {
      EvictedShake(s, e.shake, s.rx.peer);
    } else if s.rx.Drain? {
      DrainLeavesFlags(s, e, s.rx.peer);
      hide DrainNext;
    } else {
      hide AcceptNext, Evicted;
      if Exclusive(s.rx) {
        EvictedTakeOver(s, e);
      } else {
        EvictedEvict(s, e);
      }
    }
  }

  lemma EvictedVacate(s: State, why: Reason)
    requires Evicted(s) && s.rx == DropSwap(why)
    ensures Evicted(VacateNext(s, why))
  {
    if s.client.None? {
      assert !Accepting(AfterDrop(why));
    }
  }

  lemma EvictedDrop(s: State)
    requires Evicted(s) && Dropping(s.rx)
    ensures Evicted(DropNext(s))
  {
    hide VacateNext;
    match s.rx
    case CheckFailed =>
    case DropSwap(why) => EvictedVacate(s, why);
    case DropClose(_, _) =>
  }

  lemma EvictedIntake(s: State, e: RxEnv)
    requires Evicted(s) && !Accepting(s.rx) && !Dropping(s.rx)
    ensures Evicted(IntakeNext(s, e))
  {
    IntakeKeepsFrame(s, e);
    if s.rx.Ready? {
      ReadyClosesNone(s, e);
    } else {
      IntakeClosesNone(s, e);
    }
    hide IntakeNext;
  }

  lemma ReadyClosesNone(s: State, e: RxEnv)
    requires s.rx.Ready?
    ensures var t := IntakeNext(s, e); t.down == s.down && (t.rx.CheckFailed? || t.rx.Handshaking?)
  {
  }

  lemma EvictedTx(s: State, e: TxEnv)
    requires Evicted(s)
    ensures Evicted(TxNext(s, e))
  {
    TxKeepsRxPart(s, e);
    SendingFrom(s, e);
    hide TxNext;
  }

  lemma EvictedStep(s: State, a: Action)
    requires Evicted(s) && Base(s)
    ensures Evicted(Step(s, a))
  {
    SlotsGiveSlot(s);
    hide AcceptNext, DropNext, IntakeNext, TxNext, AcceptSlot, Base;
    match a
    case RxStep(e) =>
      hide Evicted;
      if Accepting(s.rx) {
        EvictedAccept(s, e);
      } else if Dropping(s.rx) {
        EvictedDrop(s);
      } else {
        EvictedIntake(s, e);
      }
    case TxStep(e) => EvictedTx(s, e);
    case CbStep(pkt) =>
      CbFrame(s, pkt);
      hide CbNext;
  }

  lemma {:induction false} EvictedExec(s: State, schedule: seq<Action>)
    requires Evicted(s) && Base(s)
    ensures Evicted(Exec(s, schedule))
    decreases |schedule|
  {
    hide Evicted, Base, Step;
    if schedule != [] {
      EvictedStep(s, schedule[0]);
      BaseStep(s, schedule[0]);
      EvictedExec(Step(s, schedule[0]), schedule[1..]);
    }
  }

  function CountTx(schedule: seq<Action>): nat {
    if schedule == [] then 0 else (if schedule[0].TxStep? then 1 else 0) + CountTx(schedule[1..])
  }

  /** How many more steps tx needs to report itself parked. */
  function Distance(tx: TxPc, idle: bool): nat {
    if idle && Parked(tx) then 0
    else
      match tx
      case StoreIdle => 1
      case Top => 2
      case Report(_) => 3
      case LoadClient(_) => 3
      case Sending(_, _) => 4
      case Take => 4
      case ClearIdle => 5
  }

  /** rx is waiting, and there is nothing left that tx could send on. */
  predicate Awaiting(s: State) {
    s.rx.WaitIdle? && s.pause && s.client.None? && (s.tx.Sending? ==> s.tx.conn in s.down)
  }

  lemma AwaitingTx(s: State, e: TxEnv)
    requires Awaiting(s)
    ensures
      var t := TxNext(s, e);
      Awaiting(t) && Distance(t.tx, t.idle) <= if Distance(s.tx, s.idle) == 0 then 0 else Distance(s.tx, s.idle) - 1
  {
    match s.tx
    case Top =>
    case StoreIdle =>
    case ClearIdle =>
    case Take =>
    case LoadClient(_) =>
    case Sending(_, _) =>
    case Report(_) =>
  }

  lemma {:induction false} AwaitingExec(s: State, schedule: seq<Action>)
    requires Awaiting(s) && NoRx(schedule)
    ensures
      var t := Exec(s, schedule);
      Awaiting(t) && (Distance(s.tx, s.idle) <= CountTx(schedule) ==> Distance(t.tx, t.idle) == 0)
    decreases |schedule|
  {
    if schedule != [] {
      match schedule[0] {
        case TxStep(e) => AwaitingTx(s, e);
        case CbStep(pkt) => CbFrame(s, pkt);
      }
      hide TxNext, CbNext, Distance;
      AwaitingExec(Step(s, schedule[0]), schedule[1..]);
    }
  }

  /** In every schedule: wherever tx is when rx begins to wait, be it in the middle of a send to the evicted host, five of
      its steps later it is parked and says so, and rx goes on; whatever the network and the callback do meanwhile. */
  lemma WaitEnds(before: seq<Action>, schedule: seq<Action>, e: RxEnv)
    requires Exec(INITIAL, before).rx.WaitIdle? && NoRx(schedule) && CountTx(schedule) >= 5
    ensures
      var t := Exec(Exec(INITIAL, before), schedule);
      t.idle && Parked(t.tx) && RxNext(t, e).rx.CloseOld?
  {
    var s := Exec(INITIAL, before);
    BaseInitial();
    BaseExec(INITIAL, before);
    BlameInitial();
    BlameExec(INITIAL, before);
    EvictedExec(INITIAL, before);
    assert Awaiting(s) by {
      hide Exec;
      SlotsGiveSlot(s);
      hide Base, Failures;
    }
    hide Exec, Base, Blame, Evicted;
    AwaitingExec(s, schedule);
  }
}
