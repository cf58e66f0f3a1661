/** No connection is forgotten: in every schedule of the stream pump each accepted connection is the client, in rx's
    hands, or closed. */
module BridgeClosing {
  import opened Bytes
  import opened Bridge

  /** The connections rx is working on outside the client slot. */
  function Held(rx: RxPc): set<Conn> {
    match rx
    case Handshaking(f) => {f}
    case Swap(f) => {f}
    case Shut(f, prev) => {f} + AsSet(prev)
    case ResetRe(f, prev) => {f} + AsSet(prev)
    case LowerIdle(f, prev) => {f} + AsSet(prev)
    case RaisePause(f, prev) => {f} + AsSet(prev)
    case WaitIdle(f, prev) => {f} + AsSet(prev)
    case CloseOld(f, prev) => {f} + AsSet(prev)
    case ClearFailed(f) => {f}
    case Drain(f) => {f}
    case Publish(f) => {f}
    case DropClose(gone, _) => {gone}
    case _ => {}
  }

  /** From the swap to the publication there is no client. */
  predicate Vacant(rx: RxPc) {
    Accepting(rx) && !rx.Handshaking? && !rx.Swap? && !rx.LowerPause?
  }

  ghost predicate Accounted(s: State) {
    && (Vacant(s.rx) || s.rx.DropClose? ==> s.client.None?)
    && (forall c: Conn :: c < s.next ==> c in AsSet(s.client) || c in s.down || c in Held(s.rx))
  }

  lemma AccountedAccept(s: State, e: RxEnv)
    requires Accounted(s) && Accepting(s.rx)
    ensures Accounted(AcceptNext(s, e))
  {
    hide DrainNext, ShakeNext;
    match s.rx
    case Handshaking(f) => AccountedShake(s, e.shake, f);
    case Swap(_) =>
    case Shut(_, _) =>
    case ResetRe(_, _) =>
    case LowerIdle(_, _) =>
    case RaisePause(_, _) =>
    case WaitIdle(_, _) =>
    case CloseOld(_, _) =>
    case ClearFailed(_) =>
    case Drain(f) => AccountedDrain(s, e, f);
    case Publish(_) =>
    case LowerPause(_) =>
  }

  lemma AccountedShake(s: State, shake: Shake, f: Conn)
    requires Accounted(s) && s.rx == Handshaking(f)
    ensures Accounted(ShakeNext(s, shake, f))
  {
  }

  lemma AccountedDrain(s: State, e: RxEnv, f: Conn)
    requires Accounted(s) && s.rx == Drain(f)
    ensures Accounted(DrainNext(s, e, f))
  {
  }

  lemma AccountedDrop(s: State)
    requires Accounted(s) && Dropping(s.rx)
    ensures Accounted(DropNext(s))
  {
    match s.rx
    case CheckFailed =>
    case DropSwap(_) =>
    case DropClose(_, _) =>
  }

  lemma AccountedPoll(s: State, e: RxEnv)
    requires Accounted(s) && s.rx.Poll?
    ensures Accounted(PollNext(s, e))
  {
  }

  lemma AccountedReady(s: State, e: RxEnv)
    requires Accounted(s) && s.rx.Ready?
    ensures Accounted(ReadyNext(s, e, s.rx.acceptable))
  {
  }

  lemma AccountedReceive(s: State, e: RxEnv)
    requires Accounted(s) && s.rx.Receive?
    ensures Accounted(RecvNext(s, e))
  {
  }

  lemma AccountedFeed(s: State)
    requires Accounted(s) && s.rx.Feeding?
    ensures Accounted(FeedNext(s, s.rx.conn, s.rx.chunk))
  {
    hide FeedOnce;
  }

  lemma AccountedIntake(s: State, e: RxEnv)
    requires Accounted(s) && !Accepting(s.rx) && !Dropping(s.rx)
    ensures Accounted(IntakeNext(s, e))
  {
    hide PollNext, ReadyNext, RecvNext, FeedNext;
    match s.rx
    case Poll => AccountedPoll(s, e);
    case Ready(_) => AccountedReady(s, e);
    case Receive => AccountedReceive(s, e);
    case Feeding(_, _) => AccountedFeed(s);
  }

  lemma AccountedStep(s: State, a: Action)
    requires Accounted(s)
    ensures Accounted(Step(s, a))
  {
    hide AcceptNext, DropNext, IntakeNext, Held;
    match a
    case RxStep(e) =>
      if Accepting(s.rx) {
        AccountedAccept(s, e);
      } else if Dropping(s.rx) {
        AccountedDrop(s);
      } else {
        AccountedIntake(s, e);
      }
    case TxStep(e) => TxLeavesSlot(s, e);
    case CbStep(pkt) => CbLeavesSlot(s, pkt);
  }

  lemma TxLeavesSlot(s: State, e: TxEnv)
    ensures var t := TxNext(s, e); t.rx == s.rx && t.client == s.client && t.down == s.down && t.next == s.next
  {
    match s.tx
    case Top =>
    case StoreIdle =>
    case ClearIdle =>
    case Take =>
    case LoadClient(_) =>
    case Sending(_, _) =>
    case Report(_) =>
  }

  lemma CbLeavesSlot(s: State, pkt: seq<byte>)
    ensures var t := CbNext(s, pkt); t.rx == s.rx && t.client == s.client && t.down == s.down && t.next == s.next
  {
  }

  lemma {:induction false} AccountedExec(s: State, schedule: seq<Action>)
    requires Accounted(s)
    ensures Accounted(Exec(s, schedule))
    decreases |schedule|
  {
    hide Accounted, Step;
    if schedule != [] {
      AccountedStep(s, schedule[0]);
      AccountedExec(Step(s, schedule[0]), schedule[1..]);
    }
  }

  /** In every schedule: when rx is back at its poll, every connection ever accepted except the client is closed. */
  lemma NoConnectionForgotten(schedule: seq<Action>, c: Conn)
    ensures
      var s := Exec(INITIAL, schedule);
      s.rx.Poll? && c < s.next && s.client != Some(c) ==> c in s.down
  {
    hide Exec;
    assert Accounted(INITIAL);
    AccountedExec(INITIAL, schedule);
  }
}
