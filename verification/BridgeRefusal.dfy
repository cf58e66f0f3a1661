/** Peers that do not prove the key: rx is blocked in their handshake while tx and the callback run on. */
module BridgeRefusal {
  import opened Bytes
  import opened Bridge
  import opened BridgeInvariant
  import opened BridgeIntake
  import opened BridgeDelivery
  import opened BridgeTheorems

  // ------------------------------------------------------------------
  // The time of a handshake
  // ------------------------------------------------------------------

  /** Whatever rx does in these actions, it is waiting for the peer. */
  predicate StillShaking(schedule: seq<Action>) {
    forall i :: 0 <= i < |schedule| && schedule[i].RxStep? ==> schedule[i].rx.shake.Underway?
  }

  /** The schedule without its rx actions. */
  function Others(schedule: seq<Action>): seq<Action> {
    if schedule == [] then [] else (if schedule[0].RxStep? then [] else [schedule[0]]) + Others(schedule[1..])
  }

  /** What belongs to rx: no step of tx or the callback changes it. */
  predicate RxPartKept(s: State, t: State) {
    && t.rx == s.rx && t.client == s.client && t.pending == s.pending && t.pause == s.pause && t.down == s.down
    && t.next == s.next && t.polled == s.polled && t.readable == s.readable && t.l.start == s.l.start
    && t.h.received == s.h.received && t.h.handed == s.h.handed && t.h.drops == s.h.drops && t.h.refused == s.h.refused
  }

  lemma SendKeepsRxPart(s: State, e: TxEnv, c: Conn, left: seq<byte>)
    ensures RxPartKept(s, SendNext(s, e, c, left))
  {
    SendLeavesFlags(s, e, c, left);
    hide SendNext;
  }

  lemma TxKeepsRxPart(s: State, e: TxEnv)
    ensures RxPartKept(s, TxNext(s, e))
  {
    hide SendNext;
    match s.tx
    case Top =>
    case StoreIdle =>
    case ClearIdle =>
    case Take =>
    case LoadClient(_) =>
    case Sending(c, left) => SendKeepsRxPart(s, e, c, left);
    case Report(_) =>
  }

  lemma CbKeepsRxPart(s: State, pkt: seq<byte>)
    ensures RxPartKept(s, CbNext(s, pkt))
  {
    CbFrame(s, pkt);
    hide CbNext;
  }

  lemma ShakingStep(s: State, a: Action)
    requires s.rx.Handshaking? && (a.RxStep? ==> a.rx.shake.Underway?)
    ensures RxPartKept(s, Step(s, a)) && (a.RxStep? ==> Step(s, a) == s)
  {
    hide TxNext, CbNext, RxPartKept;
    match a
    case RxStep(e) => assert RxPartKept(s, s) by { Unchanged(s); }
    case TxStep(e) => TxKeepsRxPart(s, e);
    case CbStep(pkt) => CbKeepsRxPart(s, pkt);
  }

  lemma Unchanged(s: State)
    ensures RxPartKept(s, s)
  {
  }

  lemma {:induction false} ShakingExec(s: State, schedule: seq<Action>)
    requires s.rx.Handshaking? && StillShaking(schedule)
    ensures Exec(s, schedule) == Exec(s, Others(schedule)) && RxPartKept(s, Exec(s, schedule))
    decreases |schedule|
  {
    hide Step;
    if schedule != [] {
      var t := Step(s, schedule[0]);
      ShakingStep(s, schedule[0]);
      ShakingExec(t, schedule[1..]);
      if schedule[0].RxStep? {
        assert [] + Others(schedule[1..]) == Others(schedule[1..]);
      } else {
        assert ([schedule[0]] + Others(schedule[1..]))[1..] == Others(schedule[1..]);
      }
    }
  }

  /** From accept to rejection, for every schedule in between: tx and the callback run as if rx stood still, the client,
      the reassembler, the pause and all records of connections stay as they were, and the peer is closed. */
  lemma RefusedPeerIsInvisible(s: State, schedule: seq<Action>, e: RxEnv)
    requires s.rx.Handshaking? && StillShaking(schedule) && e.shake.Refused?
    ensures
      var f, others, t := s.rx.peer, Exec(s, Others(schedule)), Exec(s, schedule + [RxStep(e)]);
      && t == others.(rx := CheckFailed, down := s.down + {f}, h := others.h.(refused := s.h.refused + {f}))
      && RxPartKept(s, others)
  {
    ShakingExec(s, schedule);
    ExecSnoc(s, schedule, RxStep(e));
    hide Exec;
  }

  // ------------------------------------------------------------------
  // Refused peers over whole schedules
  // ------------------------------------------------------------------

  function Prev(rx: RxPc): Option<Conn> {
    match rx
    case Shut(_, prev) => prev
    case ResetRe(_, prev) => prev
    case LowerIdle(_, prev) => prev
    case RaisePause(_, prev) => prev
    case WaitIdle(_, prev) => prev
    case CloseOld(_, prev) => prev
    case DropClose(gone, _) => Some(gone)
    case _ => None
  }

  /** Closed connections have old numbers; refused peers are closed and were never sent anything; the peer rx is about
      to take in is open, and what it is closing has been a client. */
  predicate Strangers(s: State) {
    && (forall c :: c in s.down ==> c < s.next)
    && (forall c :: c in s.h.refused ==> c in s.down && c !in s.l.wire)
    && (Accepting(s.rx) ==> s.rx.peer !in s.down)
    && (Prev(s.rx).Some? ==> Prev(s.rx).value in s.l.wire)
  }

  lemma StrangersShake(s: State, shake: Shake, f: Conn)
    requires Strangers(s) && Slots(s) && s.rx == Handshaking(f)
    ensures Strangers(ShakeNext(s, shake, f))
  {
  }

  lemma StrangersDrain(s: State, e: RxEnv, f: Conn)
    requires Strangers(s) && s.rx == Drain(f)
    ensures Strangers(DrainNext(s, e, f))
  {
  }

  lemma StrangersEvict(s: State, e: RxEnv)
    requires Strangers(s) && Slots(s) && InSlot(s)
    requires s.rx.Swap? || s.rx.Shut? || s.rx.ResetRe? || s.rx.LowerIdle? || s.rx.RaisePause? || s.rx.WaitIdle?
    ensures Strangers(AcceptNext(s, e))
  {
    hide ShakeNext, DrainNext;
    match s.rx
    case Swap(_) =>
    case Shut(_, _) =>
    case ResetRe(_, _) =>
    case LowerIdle(_, _) =>
    case RaisePause(_, _) =>
    case WaitIdle(_, _) =>
  }

  lemma StrangersTakeOver(s: State, e: RxEnv)
    requires Strangers(s) && Slots(s) && (s.rx.CloseOld? || s.rx.ClearFailed? || s.rx.Publish? || s.rx.LowerPause?)
    ensures Strangers(AcceptNext(s, e))
  {
    hide ShakeNext, DrainNext;
    match s.rx
    case CloseOld(_, _) =>
    case ClearFailed(_) =>
    case Publish(_) =>
    case LowerPause(_) =>
  }

  lemma StrangersAccept(s: State, e: RxEnv)
    requires Strangers(s) && Base(s) && Accepting(s.rx)
    ensures Strangers(AcceptNext(s, e))
  {
    if s.rx.Handshaking? {
      StrangersShake(s, e.shake, s.rx.peer);
    } else if s.rx.Drain? {
      StrangersDrain(s, e, s.rx.peer);
    } else {
      hide AcceptNext, Strangers, Slots, Intake, Room, InSlot;
      if Exclusive(s.rx) {
        StrangersTakeOver(s, e);
      } else {
        StrangersEvict(s, e);
      }
    }
  }

  lemma StrangersDrop(s: State)
    requires Strangers(s) && Slots(s) && InSlot(s) && Dropping(s.rx)
    ensures Strangers(DropNext(s))
  {
    hide VacateNext, Numbered;
    match s.rx
    case CheckFailed =>
    case DropSwap(why) => StrangersVacate(s, why);
    case DropClose(gone, _) =>
      assert gone < s.next by { WireIsOld(s, gone); }
  }

  lemma WireIsOld(s: State, c: Conn)
    requires Slots(s) && c in s.l.wire
    ensures c < s.next
  {
  }

  lemma StrangersVacate(s: State, why: Reason)
    requires Strangers(s) && InSlot(s) && s.rx == DropSwap(why)
    ensures Strangers(VacateNext(s, why))
  {
    if s.client.None? {
      assert Prev(AfterDrop(why)).None? && !Accepting(AfterDrop(why));
    } else {
      assert Prev(DropClose(s.client.value, why)) == s.client;
      hide Accepting, Prev;
      DroppingStaysInLoop(s.client.value, why);
    }
  }

  lemma StrangersReady(s: State, e: RxEnv)
    requires Strangers(s) && s.rx.Ready?
    ensures Strangers(ReadyNext(s, e, s.rx.acceptable))
  {
  }

  /** Polling, receiving and feeding close nothing and take nobody in. */
  lemma StrangersIntake(s: State, e: RxEnv)
    requires Strangers(s) && !Accepting(s.rx) && !Dropping(s.rx)
    ensures Strangers(IntakeNext(s, e))
  {
    if s.rx.Ready? {
      StrangersReady(s, e);
    } else {
      IntakeKeepsFrame(s, e);
      IntakeClosesNone(s, e);
      hide IntakeNext;
    }
  }

  lemma IntakeClosesNone(s: State, e: RxEnv)
    requires !Accepting(s.rx) && !Dropping(s.rx) && !s.rx.Ready?
    ensures
      var t := IntakeNext(s, e);
      t.down == s.down && t.h.refused == s.h.refused && !Accepting(t.rx) && Prev(t.rx).None?
  {
    hide FeedOnce;
    match s.rx
    case Poll =>
    case Receive =>
    case Feeding(_, _) =>
  }

  lemma StrangersStep(s: State, a: Action)
    requires Strangers(s) && Base(s)
    ensures Strangers(Step(s, a))
  {
    match a
    case RxStep(e) =>
      hide AcceptNext, DropNext, IntakeNext, Strangers, Slots, InSlot, Intake, Room;
      if Accepting(s.rx) {
        StrangersAccept(s, e);
      } else if Dropping(s.rx) {
        StrangersDrop(s);
      } else {
        StrangersIntake(s, e);
      }
    case TxStep(e) =>
      TxKeepsRxPart(s, e);
      BaseTx(s, e);
      hide TxNext, Base;
      SameKeys(s.l.wire, TxNext(s, e).l.wire);
    case CbStep(pkt) =>
      CbFrame(s, pkt);
      hide CbNext, Base;
  }

  lemma SameKeys(a: map<Conn, seq<byte>>, b: map<Conn, seq<byte>>)
    requires a.Keys == b.Keys
    ensures forall c :: c in a <==> c in b
  {
    assert forall c :: c in a <==> c in a.Keys;
    assert forall c :: c in b <==> c in b.Keys;
  }

  lemma StrangersInitial()
    ensures Strangers(INITIAL)
  {
  }

  lemma {:induction false} StrangersExec(s: State, schedule: seq<Action>)
    requires Strangers(s) && Base(s)
    ensures Strangers(Exec(s, schedule))
    decreases |schedule|
  {
    hide Strangers, Base, Step;
    if schedule != [] {
      StrangersStep(s, schedule[0]);
      BaseStep(s, schedule[0]);
      StrangersExec(Step(s, schedule[0]), schedule[1..]);
    }
  }

  /** Every record of a connection is of one whose wire has been opened. */
  predicate Recorded(l: Ledger, h: History) {
    l.start.Keys <= l.wire.Keys && h.received.Keys <= l.wire.Keys && h.handed.Keys <= l.wire.Keys
  }

  lemma RecordedDrain(s: State, e: RxEnv, f: Conn)
    requires Recorded(s.l, s.h)
    ensures var t := DrainNext(s, e, f); Recorded(t.l, t.h)
  {
  }

  lemma RecordedAccept(s: State, e: RxEnv)
    requires Recorded(s.l, s.h) && Accepting(s.rx)
    ensures var t := AcceptNext(s, e); Recorded(t.l, t.h)
  {
    if s.rx.Drain? {
      RecordedDrain(s, e, s.rx.peer);
    } else {
      AcceptLedger(s, e);
      hide AcceptNext;
    }
  }

  lemma RecordedDrop(s: State)
    requires Recorded(s.l, s.h) && Dropping(s.rx)
    ensures var t := DropNext(s); Recorded(t.l, t.h)
  {
    match s.rx
    case CheckFailed =>
    case DropSwap(_) =>
    case DropClose(_, _) =>
  }

  lemma RecordedReceive(s: State, c: Conn, data: seq<byte>)
    requires Recorded(s.l, s.h) && c in s.l.wire
    ensures var t := ReceiveNext(s, c, data); Recorded(t.l, t.h)
  {
  }

  lemma RecordedFeed(s: State, c: Conn, chunk: seq<byte>)
    requires Recorded(s.l, s.h) && c in s.l.wire
    ensures var t := FeedNext(s, c, chunk); Recorded(t.l, t.h)
  {
    hide FeedOnce, LookupAll;
  }

  lemma RecordedIntake(s: State, e: RxEnv)
    requires Recorded(s.l, s.h) && !Accepting(s.rx) && !Dropping(s.rx) && InSlot(s)
    requires s.rx.Feeding? ==> s.client == Some(s.rx.conn)
    ensures var t := IntakeNext(s, e); Recorded(t.l, t.h)
  {
    hide FeedNext, ReceiveNext, Recorded;
    match s.rx
    case Poll =>
    case Ready(_) =>
    case Receive =>
      if s.client.Some? {
        RecordedReceive(s, s.client.value, e.data[..Min(|e.data|, RX_CHUNK_LEN)]);
      }
    case Feeding(c, chunk) => RecordedFeed(s, c, chunk);
  }

  lemma RecordedStep(s: State, a: Action)
    requires Recorded(s.l, s.h) && Base(s)
    ensures var t := Step(s, a); Recorded(t.l, t.h)
  {
    match a
    case RxStep(e) =>
      hide AcceptNext, DropNext, IntakeNext, Recorded, Slots, InSlot, Room;
      if Accepting(s.rx) {
        RecordedAccept(s, e);
      } else if Dropping(s.rx) {
        RecordedDrop(s);
      } else {
        RecordedIntake(s, e);
      }
    case TxStep(e) =>
      BaseTx(s, e);
      hide TxNext, Base;
    case CbStep(pkt) =>
      CbFrame(s, pkt);
      hide CbNext, Base;
  }

  lemma {:induction false} RecordedExec(s: State, schedule: seq<Action>)
    requires Recorded(s.l, s.h) && Base(s)
    ensures var t := Exec(s, schedule); Recorded(t.l, t.h)
    decreases |schedule|
  {
    hide Recorded, Base, Step;
    if schedule != [] {
      RecordedStep(s, schedule[0]);
      BaseStep(s, schedule[0]);
      RecordedExec(Step(s, schedule[0]), schedule[1..]);
    }
  }

  /** In every schedule a refused peer is closed and never was the client: nothing was sent to it, no drain was made for
      it, nothing was received from it and nothing of it was handed to the controller. */
  lemma RefusedPeerLeavesNoTrace(schedule: seq<Action>, c: Conn)
    requires c in Exec(INITIAL, schedule).h.refused
    ensures
      var s := Exec(INITIAL, schedule);
      && c in s.down && s.client != Some(c)
      && c !in s.l.wire && c !in s.l.start && c !in s.h.received && c !in s.h.handed
  {
    hide Exec;
    BaseInitial();
    BaseExec(INITIAL, schedule);
    StrangersInitial();
    StrangersExec(INITIAL, schedule);
    RecordedExec(INITIAL, schedule);
    var s := Exec(INITIAL, schedule);
    hide Slots, Intake, Room;
    assert c in s.l.start ==> c in s.l.start.Keys;
    assert c in s.h.received ==> c in s.h.received.Keys;
    assert c in s.h.handed ==> c in s.h.handed.Keys;
    assert c in s.l.wire.Keys ==> c in s.l.wire;
  }
}
