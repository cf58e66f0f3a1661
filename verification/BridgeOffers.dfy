/** Which of the packets the controller offers get into the queue, read off the schedule and the buffer alone. */
module BridgeOffers {
  import opened Bytes
  import opened H4
  import opened Bridge
  import opened BridgeInvariant
  import opened BridgeDelivery
  import opened BridgeTheorems

  // ------------------------------------------------------------------
  // What the schedule offers
  // ------------------------------------------------------------------

  /** The callback as seen from outside: between calls, before the space check, or past it. */
  datatype Call = Idle | Offered(pkt: seq<byte>) | Cleared(pkt: seq<byte>)

  /** One more callback action, with the client slot and the free space as they are now. */
  function CallNext(call: Call, pkt: seq<byte>, connected: bool, used: nat): Call {
    match call
    case Idle => if connected then Offered(pkt) else Idle
    case Offered(p) => if used + |p| <= 16384 then Cleared(p) else Idle
    case Cleared(_) => Idle
  }

  /** The packets that were offered while a client was set and found room at their space check, in order. */
  function Admitted(s: State, schedule: seq<Action>, call: Call): seq<seq<byte>>
    decreases |schedule|
  {
    if schedule == [] then []
    else
      var a, rest := schedule[0], schedule[1..];
      if !a.CbStep? then Admitted(Step(s, a), rest, call)
      else
        (if call.Cleared? then [call.pkt] else [])
        + Admitted(Step(s, a), rest, CallNext(call, a.pkt, s.client.Some?, |s.sb|))
  }

  /** Where the callback stands. */
  function CallOf(cb: CbPc): Call {
    match cb
    case Waiting => Idle
    case CheckSpace(p) => Offered(p)
    case Enqueue(p) => Cleared(p)
  }

  // ------------------------------------------------------------------
  // The queue is what was admitted
  // ------------------------------------------------------------------

  /** The buffer holds what has been queued and not yet read; in every schedule. */
  predicate Stocked(s: State) {
    && s.l.stream == Flatten(s.l.queued)
    && s.l.taken <= |s.l.stream| && s.sb == s.l.stream[s.l.taken..]
  }

  lemma CallStep(s: State, pkt: seq<byte>)
    requires Room(s.sb, s.cb)
    ensures
      var t := CbNext(s, pkt);
      && CallOf(t.cb) == CallNext(CallOf(s.cb), pkt, s.client.Some?, |s.sb|)
      && t.l.queued == s.l.queued + (if s.cb.Enqueue? then [s.cb.pkt] else [])
  {
    match s.cb
    case Waiting =>
    case CheckSpace(_) =>
    case Enqueue(p) => RoomCb(s, pkt);
  }

  /** Steps of rx and tx leave callback and queue record alone. */
  lemma OthersLeaveQueue(s: State, a: Action)
    requires Base(s) && !a.CbStep?
    ensures Step(s, a).cb == s.cb && Step(s, a).l.queued == s.l.queued && Step(s, a).l.stream == s.l.stream
  {
    match a
    case RxStep(e) =>
      hide AcceptNext, DropNext, IntakeNext, Base;
      if Accepting(s.rx) {
        AcceptKeepsStream(s, e);
      } else if Dropping(s.rx) {
        DropKeepsFrame(s);
      } else {
        IntakeKeepsFrame(s, e);
      }
    case TxStep(e) =>
      BaseTx(s, e);
      hide TxNext, Base;
  }

  lemma AcceptKeepsStream(s: State, e: RxEnv)
    requires Accepting(s.rx)
    ensures var t := AcceptNext(s, e); t.cb == s.cb && t.l.queued == s.l.queued && t.l.stream == s.l.stream
  {
    if !s.rx.Drain? {
      AcceptLedger(s, e);
    }
  }

  /** In every schedule the queue record grows by exactly the packets that the schedule admits. */
  lemma {:induction false} QueuedIsAdmitted(s: State, schedule: seq<Action>)
    requires Base(s)
    ensures Exec(s, schedule).l.queued == s.l.queued + Admitted(s, schedule, CallOf(s.cb))
    decreases |schedule|
  {
    if schedule == [] {
      assert s.l.queued + [] == s.l.queued;
    } else {
      var a := schedule[0];
      if a.CbStep? {
        CallStep(s, a.pkt) by { RoomOf(s); }
        hide CbNext, CallNext;
        Assoc(s.l.queued, if s.cb.Enqueue? then [s.cb.pkt] else [], Admitted(Step(s, a), schedule[1..], CallOf(Step(s, a).cb)));
        hide Base;
        BaseStep(s, a);
      } else {
        OthersLeaveQueue(s, a);
        hide Step, Base;
        BaseStep(s, a);
      }
      QueuedIsAdmitted(Step(s, a), schedule[1..]);
    }
  }

  lemma RoomOf(s: State)
    requires Base(s)
    ensures Room(s.sb, s.cb)
  {
  }

  // ------------------------------------------------------------------
  // The buffer is the queue
  // ------------------------------------------------------------------

  lemma StockedTake(s: State, t: State, n: nat)
    requires Stocked(s) && n <= |s.sb| && t.sb == s.sb[n..]
    requires t.l.queued == s.l.queued && t.l.stream == s.l.stream && t.l.taken == s.l.taken + n
    ensures Stocked(t)
  {
    hide Flatten;
  }

  lemma StockedSame(s: State, t: State)
    requires Stocked(s) && t.sb == s.sb && t.l.queued == s.l.queued && t.l.stream == s.l.stream && t.l.taken == s.l.taken
    ensures Stocked(t)
  {
  }

  lemma StockedCb(s: State, pkt: seq<byte>)
    requires Stocked(s)
    ensures Stocked(CbNext(s, pkt))
  {
    hide Flatten;
    match s.cb
    case Waiting =>
    case CheckSpace(_) =>
    case Enqueue(p) =>
      var room := if |s.sb| < STREAM_BUFFER_LEN then STREAM_BUFFER_LEN - |s.sb| else 0;
      var x := p[..Min(room, |p|)];
      FlattenSnoc(s.l.queued, x);
      assert (s.l.stream + x)[s.l.taken..] == s.sb + x;
  }

  lemma StockedTx(s: State, e: TxEnv)
    requires Stocked(s)
    ensures Stocked(TxNext(s, e))
  {
    hide Stocked, SendNext;
    match s.tx
    case Top => StockedSame(s, TxNext(s, e));
    case StoreIdle => StockedSame(s, TxNext(s, e));
    case ClearIdle => StockedSame(s, TxNext(s, e));
    case Take => StockedTake(s, TxNext(s, e), Min(Min(e.take, TX_CHUNK_LEN), |s.sb|));
    case LoadClient(_) => StockedSame(s, TxNext(s, e));
    case Sending(c, left) =>
      SendLeavesFlags(s, e, c, left);
      StockedSame(s, TxNext(s, e));
    case Report(_) => StockedSame(s, TxNext(s, e));
  }

  lemma StockedDrain(s: State, e: RxEnv, f: Conn)
    requires Stocked(s)
    ensures Stocked(DrainNext(s, e, f))
  {
    hide Stocked;
    if s.sb == [] {
      StockedSame(s, DrainNext(s, e, f));
    } else {
      StockedTake(s, DrainNext(s, e, f), Min(Min(e.take + 1, TX_CHUNK_LEN), |s.sb|));
    }
  }

  lemma StockedRx(s: State, e: RxEnv)
    requires Stocked(s)
    ensures Stocked(RxNext(s, e))
  {
    if s.rx.Drain? {
      StockedDrain(s, e, s.rx.peer);
    } else {
      hide AcceptNext, DropNext, IntakeNext, Stocked;
      if Accepting(s.rx) {
        AcceptLedger(s, e);
      } else if Dropping(s.rx) {
        DropKeepsFrame(s);
      } else {
        IntakeKeepsFrame(s, e);
      }
      StockedSame(s, RxNext(s, e));
    }
  }

  lemma {:induction false} StockedExec(s: State, schedule: seq<Action>)
    requires Stocked(s)
    ensures Stocked(Exec(s, schedule))
    decreases |schedule|
  {
    hide Stocked, RxNext, TxNext, CbNext;
    if schedule != [] {
      match schedule[0] {
        case RxStep(e) => StockedRx(s, e);
        case TxStep(e) => StockedTx(s, e);
        case CbStep(pkt) => StockedCb(s, pkt);
      }
      StockedExec(Step(s, schedule[0]), schedule[1..]);
    }
  }

  lemma StockedInitial()
    ensures Stocked(INITIAL)
  {
  }

  // ------------------------------------------------------------------
  // Main results
  // ------------------------------------------------------------------

  /** In every schedule: the queue record is exactly the list of packets offered while a client was set that fitted into
      the 16384 bytes at their space check, in order, and the buffer holds the unread end of their bytes. */
  lemma QueueIsOffered(schedule: seq<Action>)
    ensures
      var s := Exec(INITIAL, schedule);
      var offered := Admitted(INITIAL, schedule, Idle);
      s.l.queued == offered && s.l.taken <= |Flatten(offered)| && s.sb == Flatten(offered)[s.l.taken..]
  {
    hide Exec, Flatten, Admitted;
    BaseInitial();
    QueuedIsAdmitted(INITIAL, schedule);
    StockedInitial();
    StockedExec(INITIAL, schedule);
    assert [] + Admitted(INITIAL, schedule, Idle) == Admitted(INITIAL, schedule, Idle);
  }

  /** End to end in the controller's terms: what a host makes of any part of its connection is a prefix of the packets the
      controller offered and the board admitted since that connection's drain ended. */
  lemma DeliveredWereOffered(schedule: seq<Action>, c: Conn, got: seq<byte>)
    requires Harmless(INITIAL, schedule) && ControllerFrames(schedule)
    requires c in Exec(INITIAL, schedule).l.wire && got <= Exec(INITIAL, schedule).l.wire[c]
    ensures
      var offered, l := Admitted(INITIAL, schedule, Idle), Exec(INITIAL, schedule).l;
      && c in l.start && l.start[c] <= |offered|
      && Parse(got, 65540).error.None? && Parse(got, 65540).packets <= offered[l.start[c]..]
  {
    hide Exec, Harmless, Flatten, Parse, Admitted, ControllerFrames;
    EndToEnd(schedule, c, got);
    QueueIsOffered(schedule);
  }

  predicate NoCallback(schedule: seq<Action>) {
    forall i :: 0 <= i < |schedule| ==> !schedule[i].CbStep?
  }

  /** While the callback does not move, nothing is queued. */
  lemma {:induction false} NothingQueuedMeanwhile(s: State, schedule: seq<Action>)
    requires Base(s) && NoCallback(schedule)
    ensures Exec(s, schedule).cb == s.cb && Exec(s, schedule).l.queued == s.l.queued && Base(Exec(s, schedule))
    decreases |schedule|
  {
    hide Base, Step;
    if schedule != [] {
      OthersLeaveQueue(s, schedule[0]);
      BaseStep(s, schedule[0]);
      NothingQueuedMeanwhile(Step(s, schedule[0]), schedule[1..]);
    }
  }

  /** One offer, in every schedule and with rx and tx running between the callback's actions: with a client set the packet
      enters the queue, whole, if and only if it fits beside what is in the buffer at its space check; without a client it
      does not enter. */
  lemma OfferEntersIff(before: seq<Action>, pkt: seq<byte>, first: seq<Action>, any: seq<byte>, second: seq<Action>, other: seq<byte>)
    requires Exec(INITIAL, before).cb.Waiting? && NoCallback(first) && NoCallback(second)
    ensures
      var s := Exec(INITIAL, before);
      var check := Exec(Step(s, CbStep(pkt)), first);
      var write := Exec(Step(check, CbStep(any)), second);
      var end := Step(write, CbStep(other));
      if s.client.None? then check.l.queued == s.l.queued && check.cb.Waiting?
      else if |check.sb| + |pkt| <= 16384 then end.l.queued == s.l.queued + [pkt] && end.sb == write.sb + pkt && end.cb.Waiting?
      else write.l.queued == s.l.queued && write.cb.Waiting?
  {
    hide Exec;
    BaseInitial();
    BaseExec(INITIAL, before);
    OfferEnters(Exec(INITIAL, before), pkt, first, any, second, other);
  }

  lemma OfferEnters(s: State, pkt: seq<byte>, first: seq<Action>, any: seq<byte>, second: seq<Action>, other: seq<byte>)
    requires Base(s) && s.cb.Waiting? && NoCallback(first) && NoCallback(second)
    ensures
      var check := Exec(Step(s, CbStep(pkt)), first);
      var write := Exec(Step(check, CbStep(any)), second);
      var end := Step(write, CbStep(other));
      if s.client.None? then check.l.queued == s.l.queued && check.cb.Waiting?
      else if |check.sb| + |pkt| <= 16384 then end.l.queued == s.l.queued + [pkt] && end.sb == write.sb + pkt && end.cb.Waiting?
      else write.l.queued == s.l.queued && write.cb.Waiting?
  {
    hide Exec, Base;
    var s1 := Step(s, CbStep(pkt));
    BaseStep(s, CbStep(pkt));
    assert s1 == if s.client.None? then s else s.(cb := CheckSpace(pkt));
    NothingQueuedMeanwhile(s1, first);
    var check := Exec(s1, first);
    var s2 := Step(check, CbStep(any));
    BaseStep(check, CbStep(any));
    NothingQueuedMeanwhile(s2, second);
    var write := Exec(s2, second);
    RoomOf(write);
    RoomCb(write, other);
  }
}
