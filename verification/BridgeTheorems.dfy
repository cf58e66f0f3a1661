/** The stream pump over whole schedules. */
module BridgeTheorems {
  import opened Bytes
  import opened H4
  import opened Bridge
  import opened BridgeInvariant
  import opened BridgeIntake
  import opened BridgeDelivery

  // ------------------------------------------------------------------
  // Invariants of every schedule
  // ------------------------------------------------------------------

  predicate InSlot(s: State) {
    && (s.client.Some? ==> s.client.value in s.l.wire)
    && (s.tx.Sending? ==> s.tx.conn in s.l.wire)
  }

  /** Kept by every step, however tx and rx interleave. */
  predicate Base(s: State) {
    Slots(s) && InSlot(s) && Intake(s) && Room(s.sb, s.cb)
  }

  lemma IntakeTx(s: State, t: State)
    requires Intake(s) && TxFrame(s, t)
    ensures Intake(t)
  {
    hide Settled, Progress, Unfinished, Finished;
  }

  lemma InSlotTx(s: State, e: TxEnv)
    requires InSlot(s) && TxFrame(s, TxNext(s, e))
    ensures InSlot(TxNext(s, e))
  {
    hide Min, TakeNext;
    var t := TxNext(s, e);
    assert forall c :: c in t.l.wire <==> c in t.l.wire.Keys;
    assert forall c :: c in s.l.wire <==> c in s.l.wire.Keys;
    assert t.tx.Sending? ==> (s.tx.Sending? && t.tx.conn == s.tx.conn) || s.client == Some(t.tx.conn) by {
      SendingFrom(s, e);
    }
  }

  lemma SendingFrom(s: State, e: TxEnv)
    ensures
      var t := TxNext(s, e);
      t.tx.Sending? ==> (s.tx.Sending? && t.tx.conn == s.tx.conn) || s.client == Some(t.tx.conn)
  {
  }

  lemma BaseTx(s: State, e: TxEnv)
    requires Base(s)
    ensures Base(TxNext(s, e)) && TxFrame(s, TxNext(s, e))
  {
    TxKeepsFrame(s, e);
    InSlotTx(s, e);
    hide TxNext, Slots, Intake;
    SlotsTx(s, TxNext(s, e));
    IntakeTx(s, TxNext(s, e));
  }

  lemma BaseCb(s: State, pkt: seq<byte>)
    requires Base(s)
    ensures Base(CbNext(s, pkt))
  {
    RoomCb(s, pkt);
    hide Room;
    CbFrame(s, pkt);
    hide CbNext, Settled, Progress, Unfinished, Finished, Numbered;
  }

  lemma CbFrame(s: State, pkt: seq<byte>)
    ensures
      var t := CbNext(s, pkt);
      && t == s.(sb := t.sb, cb := t.cb, l := t.l)
      && t.l == s.l.(queued := t.l.queued, stream := t.l.stream)
  {
  }

  lemma AcceptClient(s: State, e: RxEnv)
    requires Accepting(s.rx)
    ensures
      var t := AcceptNext(s, e);
      && t.tx == s.tx
      && (t.client == s.client || t.client.None? || (s.rx.Publish? && t.client == Some(s.rx.peer)))
  {
    hide DrainNext, ShakeNext;
    match s.rx
    case Handshaking(f) => ShakeLedger(s, e.shake, f);
    case Swap(_) =>
    case Shut(_, _) =>
    case ResetRe(_, _) =>
    case LowerIdle(_, _) =>
    case RaisePause(_, _) =>
    case WaitIdle(_, _) =>
    case CloseOld(_, _) =>
    case ClearFailed(_) =>
    case Drain(f) => DrainLeavesFlags(s, e, f);
    case Publish(_) =>
    case LowerPause(_) =>
  }

  lemma InSlotAccept(s: State, e: RxEnv)
    requires InSlot(s) && AcceptSlot(s) && Accepting(s.rx)
    ensures InSlot(AcceptNext(s, e))
  {
    hide AcceptNext;
    AcceptClient(s, e);
    AcceptNumbers(s, e);
  }

  lemma BaseRx(s: State, e: RxEnv)
    requires Base(s)
    ensures Base(RxNext(s, e))
  {
    if Accepting(s.rx) {
      BaseAccept(s, e);
    } else if Dropping(s.rx) {
      IntakeDrop(s);
      DropKeepsFrame(s);
      BaseLoop(s, DropNext(s));
    } else {
      IntakeIntake(s, e);
      IntakeKeepsFrame(s, e);
      BaseLoop(s, IntakeNext(s, e));
    }
  }

  lemma BaseAccept(s: State, e: RxEnv)
    requires Base(s) && Accepting(s.rx)
    ensures Base(AcceptNext(s, e))
  {
    hide AcceptNext, Slots, Intake, Room, InSlot, Accepting;
    SlotsAccept(s, e);
    assert AcceptSlot(s) by { SlotsGiveSlot(s); }
    InSlotAccept(s, e);
    IntakeAccept(s, e);
    RoomAccept(s, e);
  }

  lemma SlotsGiveSlot(s: State)
    requires Slots(s)
    ensures AcceptSlot(s)
  {
  }

  lemma BaseLoop(s: State, t: State)
    requires Base(s) && !Accepting(s.rx) && LoopFrame(s, t) && Intake(t)
    ensures Base(t)
  {
    SlotsLoop(s, t);
    hide Slots, Intake, Room, Accepting;
  }

  lemma BaseStep(s: State, a: Action)
    requires Base(s)
    ensures Base(Step(s, a))
  {
    hide Base, RxNext, TxNext, CbNext;
    match a
    case RxStep(e) => BaseRx(s, e);
    case TxStep(e) => BaseTx(s, e);
    case CbStep(pkt) => BaseCb(s, pkt);
  }

  lemma {:induction false} BaseExec(s: State, schedule: seq<Action>)
    requires Base(s)
    ensures Base(Exec(s, schedule))
    decreases |schedule|
  {
    hide Base, Step;
    if schedule != [] {
      BaseStep(s, schedule[0]);
      BaseExec(Step(s, schedule[0]), schedule[1..]);
    }
  }

  lemma BaseInitial()
    ensures Base(INITIAL)
  {
    hide Settled, Progress;
    EmptyUnfinished(RX_PACKET_LEN);
  }

  lemma {:induction false} ExecSnoc(s: State, run: seq<Action>, a: Action)
    ensures Exec(s, run + [a]) == Step(Exec(s, run), a)
    decreases |run|
  {
    hide Step;
    if run == [] {
      assert run + [a] == [a] && [a][1..] == [];
      assert Exec(Step(s, a), []) == Step(s, a);
    } else {
      TailOfConcat(run, [a]);
      ExecSnoc(Step(s, run[0]), run[1..], a);
    }
  }

  /** Also kept by every step: tx is silent while rx changes hosts, and failures are the client's own. */
  predicate Blame(s: State) {
    Mute(s) && Failures(s)
  }

  lemma BlameCb(s: State, t: State)
    requires Blame(s)
    requires t == s.(sb := t.sb, cb := t.cb, l := t.l)
    ensures Blame(t)
  {
    hide DropsJustified;
  }

  lemma BlameRx(s: State, e: RxEnv)
    requires Blame(s) && AcceptSlot(s)
    ensures Blame(RxNext(s, e))
  {
    hide AcceptNext, IntakeNext, DropNext, AcceptSlot, Mute, Failures;
    if Accepting(s.rx) {
      MuteAccept(s, e);
      FailuresAccept(s, e);
    } else if Dropping(s.rx) {
      DropKeepsFrame(s);
      MuteLoop(s, DropNext(s));
      FailuresDrop(s);
    } else {
      IntakeKeepsFrame(s, e);
      MuteLoop(s, IntakeNext(s, e));
      FailuresIntake(s, IntakeNext(s, e));
    }
  }

  lemma BlameStep(s: State, a: Action)
    requires Blame(s) && Base(s)
    ensures Blame(Step(s, a))
  {
    SlotsGiveSlot(s);
    hide Base, RxNext, TxNext, CbNext, Mute, Failures, AcceptSlot;
    match a
    case RxStep(e) => BlameRx(s, e);
    case TxStep(e) =>
      MuteTx(s, e);
      FailuresTx(s, e);
    case CbStep(pkt) =>
      CbFrame(s, pkt);
      BlameCb(s, CbNext(s, pkt));
  }

  lemma {:induction false} BlameExec(s: State, schedule: seq<Action>)
    requires Blame(s) && Base(s)
    ensures Blame(Exec(s, schedule))
    decreases |schedule|
  {
    hide Blame, Base, Step;
    if schedule != [] {
      BlameStep(s, schedule[0]);
      BaseStep(s, schedule[0]);
      BlameExec(Step(s, schedule[0]), schedule[1..]);
    }
  }

  lemma BlameInitial()
    ensures Blame(INITIAL)
  {
  }

  // ------------------------------------------------------------------
  // Invariants of every harmless schedule
  // ------------------------------------------------------------------

  predicate Inv(s: State) {
    Base(s) && Calm(s) && Flow(s) && Boundaries(s.l)
  }

  lemma InvTx(s: State, e: TxEnv)
    requires Inv(s)
    ensures Inv(TxNext(s, e))
  {
    hide TxNext, Base, Calm, Flow, Boundaries;
    BaseTx(s, e);
    CalmTx(s, e);
    CalmWhenPublishing(s);
    FlowTx(s, e);
    BoundariesTx(s, TxNext(s, e));
  }

  lemma CalmWhenPublishing(s: State)
    requires Calm(s)
    ensures s.rx.Publish? ==> Parked(s.tx) || Dry(s.sb, s.tx, s.cb)
  {
  }

  lemma BoundariesCb(s: State, pkt: seq<byte>)
    requires Boundaries(s.l)
    ensures Boundaries(CbNext(s, pkt).l)
  {
    hide Boundaries;
    if s.cb.Enqueue? {
      var room := if |s.sb| < STREAM_BUFFER_LEN then STREAM_BUFFER_LEN - |s.sb| else 0;
      BoundariesQueue(s.l, s.cb.pkt[..Min(room, |s.cb.pkt|)]);
    }
  }

  lemma InvCb(s: State, pkt: seq<byte>)
    requires Inv(s)
    ensures Inv(CbNext(s, pkt))
  {
    SlotsGiveSlot(s);
    hide Base, Flow, Boundaries, CbNext, Calm;
    BaseCb(s, pkt);
    CalmCb(s, pkt);
    FlowCb(s, pkt);
    BoundariesCb(s, pkt);
  }

  lemma InvAccept(s: State, e: RxEnv)
    requires Inv(s) && Accepting(s.rx) && HarmlessStep(s, RxStep(e))
    ensures Inv(AcceptNext(s, e))
  {
    hide AcceptNext, Slots, Intake, Room, InSlot, Accepting, Calm, Flow, Boundaries;
    BaseAccept(s, e);
    CalmAccept(s, e);
    FlowAccept(s, e);
    BoundariesAccept(s, e);
  }

  lemma InvLoop(s: State, t: State)
    requires Inv(s) && !Accepting(s.rx) && LoopFrame(s, t) && Intake(t)
    ensures Inv(t)
  {
    BaseLoop(s, t);
    CalmLoop(s, t);
    FlowLoop(s, t);
    hide Base, Calm, Flow, Boundaries;
  }

  lemma InvRx(s: State, e: RxEnv)
    requires Inv(s) && HarmlessStep(s, RxStep(e))
    ensures Inv(RxNext(s, e))
  {
    hide AcceptNext, IntakeNext, DropNext, Slots, Intake, Room, InSlot, Calm, Flow, Boundaries;
    if Accepting(s.rx) {
      InvAccept(s, e);
    } else if Dropping(s.rx) {
      IntakeDrop(s);
      DropKeepsFrame(s);
      InvLoop(s, DropNext(s));
    } else {
      IntakeIntake(s, e);
      IntakeKeepsFrame(s, e);
      InvLoop(s, IntakeNext(s, e));
    }
  }

  lemma InvStep(s: State, a: Action)
    requires Inv(s) && HarmlessStep(s, a)
    ensures Inv(Step(s, a))
  {
    hide Inv, RxNext, TxNext, CbNext;
    match a
    case RxStep(e) => InvRx(s, e);
    case TxStep(e) => InvTx(s, e);
    case CbStep(pkt) => InvCb(s, pkt);
  }

  lemma {:induction false} InvExec(s: State, schedule: seq<Action>)
    requires Inv(s) && Harmless(s, schedule)
    ensures Inv(Exec(s, schedule))
    decreases |schedule|
  {
    hide Inv, Step, HarmlessStep;
    if schedule != [] {
      InvStep(s, schedule[0]);
      InvExec(Step(s, schedule[0]), schedule[1..]);
    }
  }

  lemma FlowInitial()
    ensures Flow(INITIAL)
  {
  }

  lemma BoundariesInitial()
    ensures Boundaries(INITIAL.l)
  {
  }

  lemma InvInitial()
    ensures Inv(INITIAL)
  {
    hide Base, Flow, Boundaries;
    BaseInitial();
    FlowInitial();
    BoundariesInitial();
  }

  // ------------------------------------------------------------------
  // Main results
  // ------------------------------------------------------------------

  lemma ParkingStep(s: State, a: Action)
    requires Parking(s) && TimelyStep(s, a)
    ensures Parking(Step(s, a))
  {
    hide AcceptNext, DropNext, IntakeNext, TxNext, CbNext, Parking;
    match a
    case RxStep(e) =>
      if Accepting(s.rx) {
        ParkingAccept(s, e);
      } else if Dropping(s.rx) {
        DropKeepsFrame(s);
        ParkingLoop(s, DropNext(s));
      } else {
        IntakeKeepsFrame(s, e);
        ParkingLoop(s, IntakeNext(s, e));
      }
    case TxStep(e) => ParkingTx(s, e);
    case CbStep(pkt) =>
      CbFrame(s, pkt);
      ParkingCb(s, CbNext(s, pkt));
  }

  lemma ParkingCb(s: State, t: State)
    requires Parking(s) && t == s.(sb := t.sb, cb := t.cb, l := t.l)
    ensures Parking(t)
  {
  }

  lemma {:induction false} ParkingExec(s: State, schedule: seq<Action>)
    requires Parking(s) && Timely(s, schedule)
    ensures Parking(Exec(s, schedule))
    decreases |schedule|
  {
    hide Parking, Step, TimelyStep;
    if schedule != [] {
      ParkingStep(s, schedule[0]);
      ParkingExec(Step(s, schedule[0]), schedule[1..]);
    }
  }

  /** From leaving the wait loop until clearing `tx_pause`, tx is parked with empty hands: rx is the only
      reader of the buffer, and a replaced connection is closed with no send in progress on it. */
  lemma ParkedWhileExclusive(schedule: seq<Action>)
    requires Timely(INITIAL, schedule) && Exclusive(Exec(INITIAL, schedule).rx)
    ensures
      var s := Exec(INITIAL, schedule);
      Parked(s.tx) && InHand(s.tx) == [] && !s.tx.Sending? && s.pause
  {
    ParkingExec(INITIAL, schedule);
  }

  /** What goes out on a connection, up to its first failed send, starts on a packet boundary and is a prefix
      of the packets queued since its drain ended, also when the callback had looked at the slot before. */
  lemma WireIsPrefix(schedule: seq<Action>, c: Conn)
    requires Harmless(INITIAL, schedule)
    requires c in Exec(INITIAL, schedule).l.wire
    ensures
      var l := Exec(INITIAL, schedule).l;
      c in l.start && l.start[c] <= |l.queued| && l.wire[c] <= Flatten(l.queued[l.start[c]..])
  {
    InvInitial();
    InvExec(INITIAL, schedule);
    StretchFromStart(Exec(INITIAL, schedule).l, c);
  }

  lemma StretchFromStart(l: Ledger, c: Conn)
    requires Boundaries(l) && Wires(l) && c in l.wire
    ensures c in l.start && l.start[c] <= |l.queued|
    ensures Flatten(l.queued[l.start[c]..]) == l.stream[l.offset[c]..]
    ensures l.wire[c] <= Flatten(l.queued[l.start[c]..])
  {
    hide Flatten;
    assert StartsOnPacket(l, c);
    FlattenAt(l.queued, l.start[c]);
    var head := Flatten(l.queued[..l.start[c]]);
    assert l.stream[|head|..] == Flatten(l.queued[l.start[c]..]);
  }

  /** Nothing is lost either: while a connection is in the slot and no send on it failed, what was sent,
      what tx holds and what is queued are together exactly the packets queued since its drain ended. */
  lemma NothingLost(schedule: seq<Action>, c: Conn)
    requires Harmless(INITIAL, schedule)
    requires Exec(INITIAL, schedule).client == Some(c) && c !in Exec(INITIAL, schedule).h.broken
    ensures
      var s := Exec(INITIAL, schedule);
      && c in s.l.wire && c in s.l.start && s.l.start[c] <= |s.l.queued|
      && s.l.wire[c] + InHand(s.tx) + s.sb == Flatten(s.l.queued[s.l.start[c]..])
  {
    InvInitial();
    InvExec(INITIAL, schedule);
    var s := Exec(INITIAL, schedule);
    assert Flow(s) && Boundaries(s.l);
    hide Exec, Base, Calm, Harmless, Inv;
    StretchFromStart(s.l, c);
    hide Boundaries;
    JoinThree(s.l, s.sb, InHand(s.tx), c);
  }

  lemma JoinThree(l: Ledger, sb: seq<byte>, hand: seq<byte>, c: Conn)
    requires Accounted(l, sb, hand) && c in l.wire && c in l.offset && At(l.stream, l.offset[c], l.wire[c])
    requires l.offset[c] + |l.wire[c]| + |hand| == l.taken
    ensures l.wire[c] + hand + sb == l.stream[l.offset[c]..]
  {
    var from, mid := l.offset[c], l.offset[c] + |l.wire[c]|;
    JoinSlices(l.stream, from, mid, l.taken);
    JoinSlices(l.stream, from, l.taken, |l.stream|);
  }

  /** In every schedule, harmless or not: a client dropped because a send failed is the client that send was for; a
      failure left over from an earlier connection never drops a later one. */
  lemma FailureDropsItsOwn(schedule: seq<Action>, i: nat)
    requires i < |Exec(INITIAL, schedule).h.drops| && Exec(INITIAL, schedule).h.drops[i].1.SendFailed?
    ensures
      var h := Exec(INITIAL, schedule).h;
      h.drops[i].0 == h.drops[i].1.on && h.drops[i].0 in h.broken
  {
    hide Exec;
    BaseInitial();
    BlameInitial();
    BlameExec(INITIAL, schedule);
    hide Base;
  }

  /** In every schedule: a replaced connection is closed with no send in progress on it or on any other. */
  lemma ClosedWithoutSend(schedule: seq<Action>)
    requires Exec(INITIAL, schedule).rx.CloseOld?
    ensures !Exec(INITIAL, schedule).tx.Sending?
  {
    hide Exec;
    BaseInitial();
    BlameInitial();
    BlameExec(INITIAL, schedule);
    hide Base;
  }

  /** In every schedule, harmless or not: the packets handed to the controller for a connection are the parse
      of the bytes received on that connection alone. While a chunk is being fed they are a prefix of it. */
  lemma HandedIsParse(schedule: seq<Action>, c: Conn)
    requires c in Exec(INITIAL, schedule).h.received
    ensures
      var s := Exec(INITIAL, schedule);
      && c in s.h.handed
      && s.h.handed[c] <= Parse(s.h.received[c], RX_PACKET_LEN).packets
      && (!(s.rx.Feeding? && s.rx.conn == c) ==> s.h.handed[c] == Parse(s.h.received[c], RX_PACKET_LEN).packets)
  {
    BaseInitial();
    BaseExec(INITIAL, schedule);
    var s := Exec(INITIAL, schedule);
    assert Intake(s);
    hide Exec, Slots, Room, Base, InSlot, Parse;
    if s.client == Some(c) && !(s.rx.Feeding? && s.rx.conn == c) && s.rx != DropSwap(ProtocolError) {
      ProgressSettles(s.h.received[c], s.h.handed[c], s.pending);
    }
  }

  /** In every schedule a packet enters the queue whole: the space seen before the write is still there. */
  lemma PacketsEnterWhole(schedule: seq<Action>, pkt: seq<byte>)
    requires Exec(INITIAL, schedule).cb.Enqueue?
    ensures
      var s := Exec(INITIAL, schedule);
      && CbNext(s, pkt).l.queued == s.l.queued + [s.cb.pkt]
      && CbNext(s, pkt).sb == s.sb + s.cb.pkt
      && |CbNext(s, pkt).sb| <= STREAM_BUFFER_LEN
  {
    BaseInitial();
    BaseExec(INITIAL, schedule);
    RoomCb(Exec(INITIAL, schedule), pkt);
  }

  // ------------------------------------------------------------------
  // End to end: controller callback to host session
  // ------------------------------------------------------------------

  /** The controller only hands over framed H4 packets. */
  predicate ControllerFrames(schedule: seq<Action>) {
    forall i :: 0 <= i < |schedule| && schedule[i].CbStep? ==> Framed(schedule[i].pkt, MAX_PACKET_LEN)
  }

  lemma FramedStep(s: State, a: Action)
    requires Base(s) && QueueFramed(s.l.queued, s.cb)
    requires a.CbStep? ==> Framed(a.pkt, MAX_PACKET_LEN)
    ensures QueueFramed(Step(s, a).l.queued, Step(s, a).cb)
  {
    hide QueueFramed, Slots, Intake;
    match a
    case RxStep(e) =>
      hide AcceptNext, DropNext, IntakeNext;
      if Accepting(s.rx) {
        AcceptQueue(s, e);
      } else if Dropping(s.rx) {
        DropKeepsFrame(s);
      } else {
        IntakeKeepsFrame(s, e);
      }
    case TxStep(e) =>
      hide TxNext;
      TxKeepsFrame(s, e);
    case CbStep(pkt) =>
      hide CbNext;
      FramedCb(s, pkt);
  }

  lemma AcceptQueue(s: State, e: RxEnv)
    requires Accepting(s.rx)
    ensures AcceptNext(s, e).l.queued == s.l.queued && AcceptNext(s, e).cb == s.cb
  {
    if !s.rx.Drain? {
      AcceptLedger(s, e);
    }
  }

  lemma {:induction false} FramedExec(s: State, schedule: seq<Action>)
    requires Base(s) && QueueFramed(s.l.queued, s.cb) && ControllerFrames(schedule)
    ensures QueueFramed(Exec(s, schedule).l.queued, Exec(s, schedule).cb)
    decreases |schedule|
  {
    hide Base, Step, QueueFramed, Framed;
    if schedule != [] {
      BaseStep(s, schedule[0]);
      FramedStep(s, schedule[0]);
      FramedExec(Step(s, schedule[0]), schedule[1..]);
    }
  }

  /** However rx, tx and callback interleave and wherever tx and the network cut the bytes: what a host
      makes of any part of its connection is a prefix of the packets queued since that connection's
      drain ended, none torn or merged, and never a protocol error. */
  lemma EndToEnd(schedule: seq<Action>, c: Conn, got: seq<byte>)
    requires Harmless(INITIAL, schedule) && ControllerFrames(schedule)
    requires c in Exec(INITIAL, schedule).l.wire && got <= Exec(INITIAL, schedule).l.wire[c]
    ensures
      var l := Exec(INITIAL, schedule).l;
      var p := Parse(got, MAX_PACKET_LEN);
      && c in l.start && l.start[c] <= |l.queued|
      && p.error.None?
      && p.packets <= l.queued[l.start[c]..]
  {
    hide Exec, Harmless, Flatten, Framed, Parse;
    WireIsPrefix(schedule, c);
    BaseInitial();
    FramedExec(INITIAL, schedule);
    var l := Exec(INITIAL, schedule).l;
    ParsePrefix(got, l.queued[l.start[c]..], MAX_PACKET_LEN);
  }
}
