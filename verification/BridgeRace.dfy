/** Where the pause/idle handshake stops short: tx reads `tx_pause` and stores `tx_idle` in two steps.
    If tx still stands between the two when rx lowers `tx_idle` for the next host, the late store
    answers for a pause that has not been asked for yet. */
module BridgeRace {
  import opened Bytes
  import opened Bridge
  import opened BridgeInvariant
  import opened BridgeDelivery
  import opened BridgeTheorems
  import opened BridgeRefusal

  /** rx believes it is alone with the buffer while tx is not parked. */
  predicate Torn(s: State) {
    Exclusive(s.rx) && !Parked(s.tx)
  }

  predicate Late(rx: RxPc) {
    rx.LowerIdle? || rx.RaisePause? || rx.WaitIdle? || Exclusive(rx)
  }

  /** The schedule does not leave the acceptClient call it starts in. */
  predicate WithinCall(s: State, schedule: seq<Action>)
    decreases |schedule|
  {
    Late(s.rx) && (schedule == [] || WithinCall(Step(s, schedule[0]), schedule[1..]))
  }

  /** The schedule stays in the call and ends with rx beside an unparked tx. */
  predicate Races(s: State, schedule: seq<Action>) {
    WithinCall(s, schedule) && Torn(Exec(s, schedule))
  }

  predicate Safe(s: State) {
    Parking(s) && (s.rx.LowerIdle? ==> !s.tx.StoreIdle?)
  }

  lemma SafeRx(s: State, e: RxEnv)
    requires Safe(s) && Late(s.rx) && Late(RxNext(s, e).rx)
    ensures Safe(RxNext(s, e))
  {
    ParkingAccept(s, e);
    LateStays(s, e);
  }

  lemma LateStays(s: State, e: RxEnv)
    requires Late(s.rx)
    ensures !RxNext(s, e).rx.LowerIdle? && Accepting(s.rx)
  {
    match s.rx
    case LowerIdle(_, _) =>
    case RaisePause(_, _) =>
    case WaitIdle(_, _) =>
    case CloseOld(_, _) =>
    case ClearFailed(_) =>
    case Drain(_) =>
    case Publish(_) =>
    case LowerPause(_) =>
  }

  lemma SafeStep(s: State, a: Action)
    requires Safe(s) && Late(s.rx) && Late(Step(s, a).rx)
    ensures Safe(Step(s, a))
  {
    match a
    case RxStep(e) => SafeRx(s, e);
    case TxStep(e) =>
      ParkingTx(s, e);
      TxFromTop(s, e);
    case CbStep(pkt) =>
      CbFrame(s, pkt);
      hide CbNext;
  }

  lemma TxFromTop(s: State, e: TxEnv)
    ensures TxNext(s, e).rx == s.rx
    ensures TxNext(s, e).tx.StoreIdle? ==> s.pause
  {
    match s.tx
    case Top =>
    case StoreIdle =>
    case ClearIdle =>
    case Take =>
    case LoadClient(_) =>
    case Sending(_, _) =>
    case Report(_) =>
  }

  lemma {:induction false} SafeExec(s: State, schedule: seq<Action>)
    requires Safe(s) && WithinCall(s, schedule)
    ensures !Torn(Exec(s, schedule))
    decreases |schedule|
  {
    if schedule == [] {
    } else {
      hide Step, Safe;
      SafeStep(s, schedule[0]);
      SafeExec(Step(s, schedule[0]), schedule[1..]);
    }
  }

  const RX := RxStep(RxEnv(false, true, false, true, Proved, TX_CHUNK_LEN, []))
  const TX := TxStep(TxEnv(1, 1))

  // ------------------------------------------------------------------
  // Paths within a call
  // ------------------------------------------------------------------

  /** The schedule leads from s to t without leaving the call. */
  predicate Path(s: State, run: seq<Action>, t: State) {
    Exec(s, run) == t && WithinCall(s, run)
  }

  lemma {:induction false} WithinSnoc(s: State, run: seq<Action>, a: Action)
    requires WithinCall(s, run) && Late(Step(Exec(s, run), a).rx)
    ensures WithinCall(s, run + [a])
    decreases |run|
  {
    hide Step, Late;
    if run == [] {
      assert run + [a] == [a] && [a][1..] == [];
      assert WithinCall(Step(s, a), []);
    } else {
      TailOfConcat(run, [a]);
      WithinSnoc(Step(s, run[0]), run[1..], a);
    }
  }

  lemma Go(s: State, run: seq<Action>, t: State, a: Action) returns (longer: seq<Action>, u: State)
    requires Path(s, run, t) && Late(Step(t, a).rx)
    ensures u == Step(t, a) && Path(s, longer, u)
  {
    hide Step, Late;
    longer, u := run + [a], Step(t, a);
    ExecSnoc(s, run, a);
    WithinSnoc(s, run, a);
  }

  // ------------------------------------------------------------------
  // The late store
  // ------------------------------------------------------------------

  /** The late store of `tx_idle` lets rx through while tx goes back to work. */
  lemma TxStrays(s: State, run: seq<Action>, t: State) returns (longer: seq<Action>, u: State)
    requires Path(s, run, t) && t.rx.LowerIdle? && t.tx.StoreIdle? && !t.pause
    ensures Path(s, longer, u)
    ensures u == t.(rx := CloseOld(t.rx.peer, t.rx.prev), idle := true, pause := true, tx := ClearIdle)
  {
    var f, prev := t.rx.peer, t.rx.prev;
    longer, u := Go(s, run, t, RX);
    assert u == t.(rx := RaisePause(f, prev), idle := false);
    hide Path, Exec;
    longer, u := TxMisses(s, longer, u);
    longer, u := RxIsLetThrough(s, longer, u);
  }

  lemma TxMisses(s: State, run: seq<Action>, t: State) returns (longer: seq<Action>, u: State)
    requires Path(s, run, t) && t.rx.RaisePause? && t.tx.StoreIdle? && !t.pause
    ensures Path(s, longer, u) && u == t.(idle := true, tx := ClearIdle)
  {
    hide Path, Exec;
    longer, u := Go(s, run, t, TX);
    assert u == t.(idle := true, tx := Top);
    longer, u := Go(s, longer, u, TX);
  }

  lemma RxIsLetThrough(s: State, run: seq<Action>, t: State) returns (longer: seq<Action>, u: State)
    requires Path(s, run, t) && t.rx.RaisePause? && t.idle
    ensures Path(s, longer, u) && u == t.(rx := CloseOld(t.rx.peer, t.rx.prev), pause := true)
  {
    hide Path, Exec;
    longer, u := Go(s, run, t, RX);
    assert u == t.(rx := WaitIdle(t.rx.peer, t.rx.prev), pause := true);
    longer, u := Go(s, longer, u, RX);
  }

  lemma EmptyPath(s: State)
    requires Late(s.rx)
    ensures Path(s, [], s)
  {
  }

  /** The exact condition, to be read off when rx is about to lower `tx_idle`: the drain that follows can
      run beside a tx that is not parked if and only if tx has read `tx_pause` and not yet stored `tx_idle`. */
  lemma RaceIff(s: State)
    requires s.rx.LowerIdle? && !s.pause
    ensures (exists schedule :: Races(s, schedule)) <==> s.tx.StoreIdle?
  {
    if s.tx.StoreIdle? {
      EmptyPath(s);
      var schedule, t := TxStrays(s, [], s);
      assert Races(s, schedule);
    } else {
      forall schedule | WithinCall(s, schedule)
        ensures !Races(s, schedule)
      {
        SafeExec(s, schedule);
      }
    }
  }

  // ------------------------------------------------------------------
  // The damage
  // ------------------------------------------------------------------

  /** The connection has been sent something that was not queued for it. */
  predicate OldByte(l: Ledger, f: Conn) {
    && f in l.wire && f in l.start && l.start[f] <= |l.queued|
    && !(l.wire[f] <= Flatten(l.queued[l.start[f]..]))
  }

  /** The schedule stays in the call and damages the newcomer's stream. */
  predicate Astray(s: State, schedule: seq<Action>)
    requires s.rx.LowerIdle?
  {
    WithinCall(s, schedule) && OldByte(Exec(s, schedule).l, s.rx.peer)
  }

  /** There is a byte, or will be one as soon as the callback goes on. */
  predicate Loaded(s: State) {
    !(s.sb == [] && CbDry(s.cb))
  }

  /** The callback writes what it holds. */
  lemma CallbackWrites(s: State, run: seq<Action>, t: State) returns (longer: seq<Action>, u: State)
    requires Path(s, run, t) && Late(t.rx) && Loaded(t)
    ensures Path(s, longer, u) && u.sb != []
    ensures u == t.(sb := u.sb, cb := u.cb, l := u.l) && u.l.wire == t.l.wire
  {
    hide Path, Exec;
    longer, u := run, t;
    if t.sb == [] {
      if t.cb.CheckSpace? {
        longer, u := Go(s, longer, u, CbStep([]));
        assert u == t.(cb := Enqueue(t.cb.pkt));
      }
      longer, u := Go(s, longer, u, CbStep([]));
    }
  }

  /** tx takes the first byte. */
  lemma TxTakes(s: State, run: seq<Action>, t: State) returns (longer: seq<Action>, u: State)
    requires Path(s, run, t) && Late(t.rx) && t.tx.ClearIdle? && t.sb != []
    ensures Path(s, longer, u)
    ensures u == t.(idle := false, tx := LoadClient(t.sb[..1]), sb := t.sb[1..], l := t.l.(taken := t.l.taken + 1))
  {
    hide Path, Exec;
    longer, u := Go(s, run, t, TX);
    assert u == t.(idle := false, tx := Take);
    longer, u := Go(s, longer, u, TX);
  }

  /** From the end of the wait to the drain. */
  lemma StartsDrain(s: State, run: seq<Action>, t: State) returns (longer: seq<Action>, u: State)
    requires Path(s, run, t) && t.rx.CloseOld?
    ensures Path(s, longer, u)
    ensures u == t.(rx := Drain(t.rx.peer), down := t.down + AsSet(t.rx.prev), failed := false)
  {
    hide Path, Exec;
    longer, u := Go(s, run, t, RX);
    assert u == t.(rx := ClearFailed(t.rx.peer), down := t.down + AsSet(t.rx.prev));
    longer, u := Go(s, longer, u, RX);
  }

  /** The drain throws everything else away. */
  lemma {:induction false} DrainsRest(s: State, run: seq<Action>, t: State) returns (longer: seq<Action>, u: State)
    requires Path(s, run, t) && t.rx.Drain?
    ensures Path(s, longer, u) && u == t.(sb := [], l := t.l.(taken := u.l.taken))
    decreases |t.sb|
  {
    hide Path, Exec;
    longer, u := run, t;
    if t.sb != [] {
      longer, u := Go(s, run, t, RX);
      DrainTakes(t, u);
      longer, u := DrainsRest(s, longer, u);
    }
  }

  lemma DrainTakes(t: State, u: State)
    requires t.rx.Drain? && t.sb != [] && u == Step(t, RX)
    ensures |u.sb| < |t.sb| && u == t.(sb := u.sb, l := t.l.(taken := u.l.taken))
  {
  }

  /** The drain finds the buffer empty and the newcomer is published. */
  lemma Publishes(s: State, run: seq<Action>, t: State) returns (longer: seq<Action>, u: State)
    requires Path(s, run, t) && t.rx.Drain? && t.sb == []
    ensures Path(s, longer, u)
    ensures
      var f := t.rx.peer;
      && u == t.(client := Some(f), rx := LowerPause(f), l := u.l, h := u.h)
      && u.l == t.l.(start := t.l.start[f := |t.l.queued|], offset := t.l.offset[f := t.l.taken], wire := t.l.wire[f := []])
      && u.h.broken == t.h.broken
  {
    hide Path, Exec;
    longer, u := Go(s, run, t, RX);
    assert u == DrainNext(t, RX.rx, t.rx.peer);
    longer, u := Go(s, longer, u, RX);
  }

  /** tx finds the newcomer in the slot and sends it what it holds. */
  lemma TxSends(s: State, run: seq<Action>, t: State, b: byte) returns (longer: seq<Action>, u: State)
    requires Path(s, run, t) && t.rx.LowerPause? && t.tx == LoadClient([b]) && t.client.Some?
    requires t.client.value !in t.down && t.client.value !in t.h.broken
    requires t.client.value in t.l.wire && t.l.wire[t.client.value] == []
    ensures Path(s, longer, u)
    ensures u.l == t.l.(wire := t.l.wire[t.client.value := [b]])
  {
    hide Path, Exec;
    longer, u := Go(s, run, t, TX);
    assert u == t.(tx := Sending(t.client.value, [b]));
    longer, u := Go(s, longer, u, TX);
    assert [b][..1] == [b] && [] + [b] == [b];
  }

  /** From any such state the newcomer can be sent a byte although nothing has been queued for it. */
  lemma OldByteFrom(s: State) returns (run: seq<Action>, t: State)
    requires s.rx.LowerIdle? && s.tx.StoreIdle? && !s.pause && Loaded(s)
    requires s.rx.peer !in s.down && s.rx.prev != Some(s.rx.peer) && s.rx.peer !in s.h.broken
    ensures Path(s, run, t)
    ensures
      var f := s.rx.peer;
      f in t.l.wire && f in t.l.start && t.l.start[f] == |t.l.queued| && |t.l.wire[f]| == 1
  {
    EmptyPath(s);
    hide Path, Exec;
    run, t := CallbackWrites(s, [], s);
    run, t := TxStrays(s, run, t);
    run, t := TxTakes(s, run, t);
    ghost var b := t.tx.chunk[0];
    assert t.tx == LoadClient([b]);
    run, t := StartsDrain(s, run, t);
    run, t := DrainsRest(s, run, t);
    run, t := Publishes(s, run, t);
    run, t := TxSends(s, run, t, b);
  }

  lemma NothingQueued(l: Ledger, f: Conn)
    requires f in l.wire && f in l.start && l.start[f] == |l.queued| && |l.wire[f]| == 1
    ensures OldByte(l, f)
  {
    assert l.queued[l.start[f]..] == [];
  }

  // ------------------------------------------------------------------
  // No damage otherwise
  // ------------------------------------------------------------------

  /** At the step that lowers `tx_idle` nothing can go wrong any more. */
  predicate Secured(s: State) {
    s.rx.LowerIdle? && s.tx.StoreIdle? ==> s.sb == [] && CbDry(s.cb)
  }

  lemma SecuredStep(s: State, a: Action)
    requires Secured(s) && Late(s.rx) && Late(Step(s, a).rx) && Calm(s) && AcceptSlot(s)
    ensures Secured(Step(s, a))
  {
    match a
    case RxStep(e) =>
      LateStays(s, e);
    case TxStep(e) =>
      TxFromTop(s, e);
      TxKeepsEmpty(s, e);
      hide TxNext;
    case CbStep(pkt) =>
      CbStaysDry(s, pkt);
      hide CbNext;
  }

  lemma TxKeepsEmpty(s: State, e: TxEnv)
    ensures
      var t := TxNext(s, e);
      t.cb == s.cb && t.pause == s.pause && (s.tx.StoreIdle? ==> t.tx.Top?)
  {
    hide SendNext;
    match s.tx
    case Top =>
    case StoreIdle =>
    case ClearIdle =>
    case Take =>
    case LoadClient(_) =>
    case Sending(c, left) => SendLeavesFlags(s, e, c, left);
    case Report(_) =>
  }

  lemma CbStaysDry(s: State, pkt: seq<byte>)
    ensures
      var t := CbNext(s, pkt);
      && t.rx == s.rx && t.tx == s.tx
      && (s.client.None? && s.sb == [] && CbDry(s.cb) ==> t.sb == [] && CbDry(t.cb))
  {
    match s.cb
    case Waiting =>
    case CheckSpace(_) =>
    case Enqueue(p) =>
      assert p == [] ==> s.sb + p[..0] == s.sb;
  }

  lemma {:induction false} SecuredExec(s: State, schedule: seq<Action>)
    requires Secured(s) && WithinCall(s, schedule) && Inv(s)
    ensures Inv(Exec(s, schedule))
    decreases |schedule|
  {
    if schedule != [] {
      SlotsGiveSlot(s);
      hide Step, Secured, Base, Flow, Boundaries, Calm, AcceptSlot;
      assert Late(Step(s, schedule[0]).rx);
      SecuredStep(s, schedule[0]);
      SecuredIsHarmless(s, schedule[0]);
      hide Inv;
      InvStep(s, schedule[0]);
      SecuredExec(Step(s, schedule[0]), schedule[1..]);
    }
  }

  lemma SecuredIsHarmless(s: State, a: Action)
    requires Secured(s)
    ensures HarmlessStep(s, a)
  {
  }

  lemma NoOldByte(s: State, c: Conn)
    requires Inv(s)
    ensures !OldByte(s.l, c)
  {
    hide Base, Calm, Boundaries, Wires;
    if c in s.l.wire {
      StretchFromStart(s.l, c);
    }
  }

  /** Delivery to the newcomer, exactly. Whatever harmless run led here: at the step that lowers `tx_idle`, the rest of
      the call can put a byte on the newcomer's wire that was not queued for it if and only if tx has read `tx_pause`
      without having stored `tx_idle`, and there is a byte in the buffer or in the callback's hands. */
  lemma OldByteIff(run: seq<Action>)
    requires Harmless(INITIAL, run) && Exec(INITIAL, run).rx.LowerIdle?
    ensures
      var s := Exec(INITIAL, run);
      (exists schedule :: Astray(s, schedule)) <==>
      s.tx.StoreIdle? && Loaded(s)
  {
    hide Exec, Harmless, Inv, Strangers, Base, Astray, Loaded;
    InvInitial();
    InvExec(INITIAL, run);
    BaseInitial();
    StrangersInitial();
    StrangersExec(INITIAL, run);
    OldByteFromHere(Exec(INITIAL, run));
  }

  lemma OldByteFromHere(s: State)
    requires Inv(s) && Strangers(s) && s.rx.LowerIdle?
    ensures (exists schedule :: Astray(s, schedule)) <==>
            s.tx.StoreIdle? && Loaded(s)
  {
    if s.tx.StoreIdle? && Loaded(s) {
      PeerIsFresh(s);
      var schedule, t := OldByteFrom(s);
      NothingQueued(t.l, s.rx.peer);
      assert Astray(s, schedule);
    } else {
      forall schedule | WithinCall(s, schedule)
        ensures !Astray(s, schedule)
      {
        SecuredExec(s, schedule);
        NoOldByte(Exec(s, schedule), s.rx.peer);
      }
    }
  }

  lemma PeerIsFresh(s: State)
    requires Inv(s) && Strangers(s) && s.rx.LowerIdle?
    ensures s.rx.peer !in s.down && s.rx.prev != Some(s.rx.peer) && s.rx.peer !in s.h.broken && !s.pause
  {
    hide Flow, Boundaries, Room;
  }

  // ------------------------------------------------------------------
  // Such a state is reached
  // ------------------------------------------------------------------

  /** Extends a run by one step. */
  lemma Extend(run: seq<Action>, s: State, a: Action) returns (longer: seq<Action>, t: State)
    requires Exec(INITIAL, run) == s
    ensures longer == run + [a] && t == Step(s, a) && Exec(INITIAL, longer) == t
  {
    hide Step;
    longer, t := run + [a], Step(s, a);
    ExecSnoc(INITIAL, run, a);
  }

  /** A peer connects and proves the key: rx is about to lower `tx_idle`. */
  lemma PeerArrives(run: seq<Action>, s: State) returns (longer: seq<Action>, t: State)
    requires Exec(INITIAL, run) == s && s.rx.Poll?
    ensures Exec(INITIAL, longer) == t
    ensures t == s.(rx := LowerIdle(s.next, s.client), client := None, next := s.next + 1, polled := s.client,
                    readable := false, pending := [], down := s.down + AsSet(s.client))
  {
    hide Step, Exec;
    longer, t := PeerProves(run, s);
    longer, t := HostEvicted(longer, t);
  }

  lemma PeerProves(run: seq<Action>, s: State) returns (longer: seq<Action>, t: State)
    requires Exec(INITIAL, run) == s && s.rx.Poll?
    ensures Exec(INITIAL, longer) == t
    ensures t == s.(rx := Swap(s.next), next := s.next + 1, polled := s.client, readable := false)
  {
    hide Exec;
    longer, t := Extend(run, s, RX);
    assert t == s.(rx := Ready(true), polled := s.client, readable := false);
    longer, t := Extend(longer, t, RX);
    assert t == s.(rx := Handshaking(s.next), next := s.next + 1, polled := s.client, readable := false);
    longer, t := Extend(longer, t, RX);
  }

  lemma HostEvicted(run: seq<Action>, s: State) returns (longer: seq<Action>, t: State)
    requires Exec(INITIAL, run) == s && s.rx.Swap?
    ensures Exec(INITIAL, longer) == t
    ensures t == s.(rx := LowerIdle(s.rx.peer, s.client), client := None, pending := [], down := s.down + AsSet(s.client))
  {
    hide Exec;
    longer, t := Extend(run, s, RX);
    assert t == s.(rx := Shut(s.rx.peer, s.client), client := None);
    longer, t := Extend(longer, t, RX);
    assert t == s.(rx := ResetRe(s.rx.peer, s.client), client := None, down := s.down + AsSet(s.client));
    longer, t := Extend(longer, t, RX);
  }

  /** tx parks, and on its next round reads the pause once more without yet storing `tx_idle`. */
  lemma TxParks(run: seq<Action>, s: State) returns (longer: seq<Action>, t: State)
    requires Exec(INITIAL, run) == s && s.rx.LowerIdle? && s.tx.Top?
    ensures Exec(INITIAL, longer) == t
    ensures t == s.(rx := WaitIdle(s.rx.peer, s.rx.prev), idle := true, pause := true, tx := StoreIdle)
  {
    hide Exec;
    longer, t := RxPauses(run, s);
    longer, t := Extend(longer, t, TX);
    assert t == s.(rx := WaitIdle(s.rx.peer, s.rx.prev), idle := false, pause := true, tx := StoreIdle);
    longer, t := Extend(longer, t, TX);
    assert t == s.(rx := WaitIdle(s.rx.peer, s.rx.prev), idle := true, pause := true, tx := Top);
    longer, t := Extend(longer, t, TX);
  }

  lemma RxPauses(run: seq<Action>, s: State) returns (longer: seq<Action>, t: State)
    requires Exec(INITIAL, run) == s && s.rx.LowerIdle?
    ensures Exec(INITIAL, longer) == t
    ensures t == s.(rx := WaitIdle(s.rx.peer, s.rx.prev), idle := false, pause := true)
  {
    hide Exec;
    longer, t := Extend(run, s, RX);
    assert t == s.(rx := RaisePause(s.rx.peer, s.rx.prev), idle := false);
    longer, t := Extend(longer, t, RX);
  }

  /** rx takes the parked tx at its word, drains nothing and publishes the newcomer. */
  lemma TakesOver(run: seq<Action>, s: State) returns (longer: seq<Action>, t: State)
    requires Exec(INITIAL, run) == s && s.rx.WaitIdle? && s.idle && s.sb == []
    ensures Exec(INITIAL, longer) == t
    ensures t == s.(rx := Publish(s.rx.peer), down := s.down + AsSet(s.rx.prev), failed := false, l := t.l, h := t.h)
    ensures t.l.queued == s.l.queued && t.h.broken == s.h.broken
  {
    hide Exec;
    var f := s.rx.peer;
    longer, t := Extend(run, s, RX);
    assert t == s.(rx := CloseOld(f, s.rx.prev));
    longer, t := Extend(longer, t, RX);
    assert t == s.(rx := ClearFailed(f), down := s.down + AsSet(s.rx.prev));
    longer, t := Extend(longer, t, RX);
    assert t == s.(rx := Drain(f), down := s.down + AsSet(s.rx.prev), failed := false);
    longer, t := Extend(longer, t, RX);
  }

  lemma BackToCheck(run: seq<Action>, s: State) returns (longer: seq<Action>, t: State)
    requires Exec(INITIAL, run) == s && s.rx.Publish?
    ensures Exec(INITIAL, longer) == t
    ensures t == s.(client := Some(s.rx.peer), rx := CheckFailed, pause := false)
  {
    hide Exec;
    longer, t := Extend(run, s, RX);
    assert t == s.(client := Some(s.rx.peer), rx := LowerPause(s.rx.peer));
    longer, t := Extend(longer, t, RX);
  }

  lemma FirstHost() returns (run: seq<Action>, s: State)
    ensures Exec(INITIAL, run) == s
    ensures s.rx.CheckFailed? && !s.failed && !s.readable && s.tx.StoreIdle? && !s.pause
    ensures s.client == Some(0) && s.next == 1 && s.cb.Waiting? && s.sb == [] && s.h.broken == {} && s.down == {}
    ensures s.l.queued == []
  {
    run, s := [], INITIAL;
    assert Exec(INITIAL, run) == s;
    hide Exec, Step;
    run, s := PeerArrives(run, s);
    run, s := TxParks(run, s);
    run, s := TakesOver(run, s);
    run, s := BackToCheck(run, s);
  }

  const EVENT: seq<byte> := [4, 16, 0]

  /** The controller queues one event for the first host, then a second host arrives. */
  lemma SecondHost() returns (run: seq<Action>, s: State)
    ensures Exec(INITIAL, run) == s
    ensures s.rx == LowerIdle(1, Some(0)) && s.tx.StoreIdle? && !s.pause
    ensures s.sb == EVENT && s.h.broken == {} && s.down == {0}
  {
    hide Exec;
    run, s := FirstHost();
    run, s := Queues(run, s);
    run, s := Idles(run, s);
    hide Step;
    run, s := PeerArrives(run, s);
  }

  lemma Idles(run: seq<Action>, s: State) returns (longer: seq<Action>, t: State)
    requires Exec(INITIAL, run) == s && s.rx.CheckFailed? && !s.failed && !s.readable
    ensures Exec(INITIAL, longer) == t && t == s.(rx := Poll)
  {
    hide Exec;
    longer, t := Extend(run, s, RX);
    assert t == s.(rx := Receive);
    longer, t := Extend(longer, t, RX);
  }

  lemma Queues(run: seq<Action>, s: State) returns (longer: seq<Action>, t: State)
    requires Exec(INITIAL, run) == s && s.cb.Waiting? && s.client.Some? && s.sb == []
    ensures Exec(INITIAL, longer) == t
    ensures t == s.(sb := EVENT, l := s.l.(queued := s.l.queued + [EVENT], stream := s.l.stream + EVENT))
  {
    hide Exec;
    longer, t := Extend(run, s, CbStep(EVENT));
    assert t == s.(cb := CheckSpace(EVENT));
    longer, t := Extend(longer, t, CbStep(EVENT));
    assert t == s.(cb := Enqueue(EVENT));
    assert EVENT[..3] == EVENT && [] + EVENT == EVENT;
    longer, t := Extend(longer, t, CbStep(EVENT));
  }

  /** The promise is broken in a run from the start: the second host receives a byte of a packet that was queued for the
      first one, although nothing has been queued for it. */
  lemma RaceTearsPacket() returns (run: seq<Action>)
    ensures
      var l := Exec(INITIAL, run).l;
      OldByte(l, 1) && l.start[1] == |l.queued| && |l.wire[1]| == 1
  {
    var first, s := SecondHost();
    var rest, t := OldByteFrom(s);
    NothingQueued(t.l, 1);
    run := first + rest;
    ExecConcat(INITIAL, first, rest);
  }

  lemma {:induction false} ExecConcat(s: State, a: seq<Action>, b: seq<Action>)
    ensures Exec(s, a + b) == Exec(Exec(s, a), b)
    decreases |a|
  {
    hide Step;
    if a == [] {
      assert a + b == b;
    } else {
      TailOfConcat(a, b);
      ExecConcat(Step(s, a[0]), a[1..], b);
    }
  }
}
