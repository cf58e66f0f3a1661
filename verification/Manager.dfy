/** The discovery manager's board sessions (host/manager.zig, host/board.zig): the main loop and one
    thread per attached board, in every interleaving.

    A step is one critical section or one action of a thread. The `Active` mutex is held across the
    steps of a claim or a revocation; a link's own mutex covers a single step. */
module Manager {
  import opened Bytes

  type BdAddr = string
  type Ip = (byte, byte, byte, byte)
  type CtxId = nat
  type StreamId = nat

  /** Where a board's thread is in boardThread and board.run. */
  datatype ThreadPc =
    | Unstarted
    | Connecting
    | Handshaking(stream: StreamId)
    | SettingLink(stream: StreamId)
    | Pumping(stream: StreamId)
    | ClearingLink(stream: StreamId)
    | ClosingStream(stream: StreamId)
    | Sleeping
    | Releasing
    | Destroying

  datatype BoardCtx = BoardCtx(bdaddr: BdAddr, ip: Ip, link: Option<StreamId>, pc: ThreadPc)

  /** Where the manager loop is. */
  datatype MainPc =
    | Listening
    | Claiming(ctx: CtxId)
    | KillingOld(ctx: CtxId, prev: CtxId)
    | Spawning(ctx: CtxId)
    | Unclaiming(ctx: CtxId)
    | Discarding(ctx: CtxId)
    | Revoking(todo: set<CtxId>, keyed: set<BdAddr>)

  datatype State = State(
    main: MainPc,
    locked: bool,                    // the Active mutex, held by the manager loop
    active: map<BdAddr, CtxId>,      // Active.map
    ctxs: map<CtxId, BoardCtx>,      // contexts that exist
    next: CtxId,
    nextStream: StreamId,
    shut: set<StreamId>,
    closed: set<StreamId>,
    // history
    holder: map<StreamId, CtxId>,    // the context a stream was opened for
    destroyed: seq<CtxId>,
    danglingUse: bool,               // a destroyed context was touched, or destroyed again
    shutAfterClose: bool)            // a stream was shut down after it had been closed

  const INITIAL := State(Listening, false, map[], map[], 0, 0, {}, {}, map[], [], false, false)

  datatype Action =
    | Announce(bdaddr: BdAddr, ip: Ip)                // a verified announce reaches active.claim
    | Revoke(keyed: set<BdAddr>)                      // a config reload starts revokeMissing: the boards with a key
    | MainStep(ok: bool, pick: CtxId)                 // ok: allocation or spawn works; pick: the iterator's next value
    | ThreadStep(ctx: CtxId, ok: bool)                // ok: connect or handshake works

  /** Link.kill on a context reached through the map. */
  function Kill(s: State, c: CtxId): State {
    if c !in s.ctxs then s.(danglingUse := true)
    else match s.ctxs[c].link
      case None => s
      case Some(st) => s.(shut := s.shut + {st}, shutAfterClose := s.shutAfterClose || st in s.closed)
  }

  function Destroy(s: State, c: CtxId): State {
    if c !in s.ctxs then s.(danglingUse := true)
    else s.(ctxs := s.ctxs - {c}, destroyed := s.destroyed + [c])
  }

  // ------------------------------------------------------------------
  // Manager loop
  // ------------------------------------------------------------------

  function AnnounceNext(s: State, bdaddr: BdAddr, ip: Ip): State {
    s.(main := Claiming(s.next), next := s.next + 1, ctxs := s.ctxs[s.next := BoardCtx(bdaddr, ip, None, Unstarted)])
  }

  /** Active.claim: a known board is not claimed again; from a new address its old link is killed. */
  function ClaimNext(s: State, c: CtxId, ok: bool): State {
    if s.locked || c !in s.ctxs then s
    else
      var bd := s.ctxs[c].bdaddr;
      if bd !in s.active then
        if ok then s.(active := s.active[bd := c], main := Spawning(c)) else s.(main := Discarding(c))
      else
        var prev := s.active[bd];
        if prev !in s.ctxs then s.(danglingUse := true)
        else if s.ctxs[prev].ip != s.ctxs[c].ip then s.(locked := true, main := KillingOld(c, prev))
        else s.(main := Discarding(c))
  }

  /** The loop of revokeMissing for one context. */
  function RevokeNext(s: State, keyed: set<BdAddr>, c: CtxId): State {
    if c !in s.ctxs then s.(danglingUse := true)
    else if s.ctxs[c].bdaddr in keyed then s
    else Kill(s, c)
  }

  function MainNext(s: State, ok: bool, pick: CtxId): State {
    match s.main
    case Listening => s
    case Claiming(c) => ClaimNext(s, c, ok)
    case KillingOld(c, prev) => Kill(s, prev).(locked := false, main := Discarding(c))
    case Spawning(c) =>
      if c !in s.ctxs then s
      else if ok then s.(ctxs := s.ctxs[c := s.ctxs[c].(pc := Connecting)], main := Listening)
      else s.(main := Unclaiming(c))
    case Unclaiming(c) =>
      if s.locked || c !in s.ctxs then s
      else s.(active := s.active - {s.ctxs[c].bdaddr}, main := Discarding(c))
    case Discarding(c) => Destroy(s, c).(main := Listening)
    case Revoking(todo, keyed) =>
      if todo == {} then s.(locked := false, main := Listening)
      else if pick !in todo then s
      else RevokeNext(s, keyed, pick).(main := Revoking(todo - {pick}, keyed))
  }

  // ------------------------------------------------------------------
  // Board threads
  // ------------------------------------------------------------------

  /** A thread's own context after its step, unless it destroys it. */
  function OwnNext(x: BoardCtx, next: StreamId, locked: bool, ok: bool): BoardCtx {
    match x.pc
    case Connecting => x.(pc := if ok then Handshaking(next) else Sleeping)
    case Handshaking(st) => x.(pc := if ok then SettingLink(st) else ClosingStream(st))
    case SettingLink(st) => x.(link := Some(st), pc := Pumping(st))
    case Pumping(st) => x.(pc := ClearingLink(st))
    case ClearingLink(st) => x.(link := None, pc := ClosingStream(st))
    case ClosingStream(_) => x.(pc := Sleeping)
    case Sleeping => x.(pc := Releasing)
    case Releasing => if locked then x else x.(pc := Destroying)
    case _ => x
  }

  /** What the step does besides: a new stream, a closed one, or a freed entry of the map. */
  function SharedNext(s: State, c: CtxId, ok: bool): State
    requires c in s.ctxs
  {
    match s.ctxs[c].pc
    case Connecting => if ok then s.(nextStream := s.nextStream + 1, holder := s.holder[s.nextStream := c]) else s
    case ClosingStream(st) => s.(closed := s.closed + {st})
    case Releasing => if s.locked then s else s.(active := s.active - {s.ctxs[c].bdaddr})
    case _ => s
  }

  function ThreadNext(s: State, c: CtxId, ok: bool): State
    requires c in s.ctxs
  {
    if s.ctxs[c].pc.Destroying? then Destroy(s, c)
    else SharedNext(s, c, ok).(ctxs := s.ctxs[c := OwnNext(s.ctxs[c], s.nextStream, s.locked, ok)])
  }

  function Step(s: State, a: Action): State {
    match a
    case Announce(bdaddr, ip) => if s.main.Listening? then AnnounceNext(s, bdaddr, ip) else s
    case Revoke(keyed) =>
      if s.main.Listening? && !s.locked then s.(locked := true, main := Revoking(s.active.Values, keyed)) else s
    case MainStep(ok, pick) => MainNext(s, ok, pick)
    case ThreadStep(c, ok) => if c in s.ctxs then ThreadNext(s, c, ok) else s
  }

  function Exec(s: State, run: seq<Action>): State
    decreases |run|
  {
    if run == [] then s else Exec(Step(s, run[0]), run[1..])
  }

  // ------------------------------------------------------------------
  // Invariant
  // ------------------------------------------------------------------

  /** The stream a thread has open. */
  function OpenStream(pc: ThreadPc): Option<StreamId> {
    match pc
    case Handshaking(st) => Some(st)
    case SettingLink(st) => Some(st)
    case Pumping(st) => Some(st)
    case ClearingLink(st) => Some(st)
    case ClosingStream(st) => Some(st)
    case _ => None
  }

  /** The context the manager loop itself still answers for. */
  function InHand(main: MainPc): Option<CtxId> {
    match main
    case Listening => None
    case Revoking(_, _) => None
    case Claiming(c) => Some(c)
    case KillingOld(c, _) => Some(c)
    case Spawning(c) => Some(c)
    case Unclaiming(c) => Some(c)
    case Discarding(c) => Some(c)
  }

  /** A context that must be the one in the map: its thread has not released it, or it awaits its thread. */
  predicate Registered(main: MainPc, c: CtxId, pc: ThreadPc) {
    if pc.Unstarted? then main == Spawning(c) || main == Unclaiming(c) else !pc.Destroying?
  }

  predicate CtxOk(s: State, c: CtxId)
    requires c in s.ctxs
  {
    var ctx := s.ctxs[c];
    && c < s.next
    && (ctx.pc.Unstarted? <==> InHand(s.main) == Some(c))
    && (Registered(s.main, c, ctx.pc) ==> ctx.bdaddr in s.active && s.active[ctx.bdaddr] == c)
    && (ctx.link.Some? ==> ctx.pc == Pumping(ctx.link.value) || ctx.pc == ClearingLink(ctx.link.value))
    && (ctx.pc.Pumping? || ctx.pc.ClearingLink? ==> ctx.link == Some(ctx.pc.stream))
    && (OpenStream(ctx.pc).Some? ==> StreamOk(s, c, OpenStream(ctx.pc).value))
  }

  predicate StreamOk(s: State, c: CtxId, st: StreamId) {
    st < s.nextStream && st !in s.closed && st in s.holder && s.holder[st] == c
  }

  predicate EntryOk(s: State, bd: BdAddr)
    requires bd in s.active
  {
    var c := s.active[bd];
    c in s.ctxs && s.ctxs[c].bdaddr == bd && Registered(s.main, c, s.ctxs[c].pc)
  }

  predicate MainOk(s: State) {
    && (InHand(s.main).Some? ==> InHand(s.main).value in s.ctxs)
    && (s.locked <==> s.main.KillingOld? || s.main.Revoking?)
    && (s.main.KillingOld? ==> s.main.prev in s.active.Values)
    && (s.main.Revoking? ==> s.main.todo <= s.active.Values)
  }

  predicate DestroyedOk(s: State) {
    && (forall i :: 0 <= i < |s.destroyed| ==> s.destroyed[i] < s.next && s.destroyed[i] !in s.ctxs)
    && (forall i, j :: 0 <= i < j < |s.destroyed| ==> s.destroyed[i] != s.destroyed[j])
    && (forall st :: st in s.closed ==> st < s.nextStream)
    && (forall st :: st in s.holder ==> st < s.nextStream)
  }

  predicate Inv(s: State) {
    && MainOk(s)
    && (forall c :: c in s.ctxs ==> CtxOk(s, c))
    && (forall bd :: bd in s.active ==> EntryOk(s, bd))
    && DestroyedOk(s)
    && !s.danglingUse && !s.shutAfterClose
  }

  lemma InvAnnounce(s: State, bdaddr: BdAddr, ip: Ip)
    requires Inv(s) && s.main.Listening?
    ensures Inv(AnnounceNext(s, bdaddr, ip))
  {
  }

  // ------------------------------------------------------------------
  // Board threads keep the invariant
  // ------------------------------------------------------------------

  /** A step of c's thread that only touches c's own context and streams. */
  ghost predicate LocalChange(s: State, t: State, c: CtxId) {
    && c in s.ctxs && c in t.ctxs
    && t.ctxs == s.ctxs[c := t.ctxs[c]]
    && t.ctxs[c].bdaddr == s.ctxs[c].bdaddr
    && !s.ctxs[c].pc.Unstarted? && !s.ctxs[c].pc.Destroying?
    && !t.ctxs[c].pc.Unstarted? && !t.ctxs[c].pc.Destroying?
    && t == s.(ctxs := t.ctxs, nextStream := t.nextStream, holder := t.holder, closed := t.closed)
    && s.nextStream <= t.nextStream
    && (forall st, d :: StreamOk(s, d, st) && d != c ==> StreamOk(t, d, st))
    && (forall st :: st in t.closed ==> st < t.nextStream)
    && (forall st :: st in t.holder ==> st < t.nextStream)
    && CtxOk(t, c)
  }

  lemma InvLocal(s: State, t: State, c: CtxId)
    requires Inv(s) && LocalChange(s, t, c)
    ensures Inv(t)
  {
    hide StreamOk, OpenStream, InHand;
    forall d | d in t.ctxs
      ensures CtxOk(t, d)
    {
      if d != c {
        assert CtxOk(s, d);
      }
    }
    forall bd | bd in t.active
      ensures EntryOk(t, bd)
    {
      assert EntryOk(s, bd);
    }
    assert MainOk(s) && DestroyedOk(s);
  }

  lemma InvOpen(s: State, c: CtxId, ok: bool)
    requires Inv(s) && c in s.ctxs && s.ctxs[c].pc.Connecting?
    ensures Inv(ThreadNext(s, c, ok))
  {
    assert CtxOk(s, c);
    InvLocal(s, ThreadNext(s, c, ok), c);
  }

  lemma InvAuthenticate(s: State, c: CtxId, ok: bool)
    requires Inv(s) && c in s.ctxs && s.ctxs[c].pc.Handshaking?
    ensures Inv(ThreadNext(s, c, ok))
  {
    assert CtxOk(s, c);
    InvLocal(s, ThreadNext(s, c, ok), c);
  }

  lemma InvLink(s: State, c: CtxId, ok: bool)
    requires Inv(s) && c in s.ctxs
    requires s.ctxs[c].pc.SettingLink? || s.ctxs[c].pc.Pumping? || s.ctxs[c].pc.ClearingLink?
    ensures Inv(ThreadNext(s, c, ok))
  {
    assert CtxOk(s, c);
    InvLocal(s, ThreadNext(s, c, ok), c);
  }

  lemma InvClose(s: State, c: CtxId, ok: bool)
    requires Inv(s) && c in s.ctxs && (s.ctxs[c].pc.ClosingStream? || s.ctxs[c].pc.Sleeping?)
    ensures Inv(ThreadNext(s, c, ok))
  {
    assert CtxOk(s, c);
    InvLocal(s, ThreadNext(s, c, ok), c);
  }

  lemma InvRelease(s: State, c: CtxId, ok: bool)
    requires Inv(s) && c in s.ctxs && s.ctxs[c].pc.Releasing?
    ensures Inv(ThreadNext(s, c, ok))
  {
    var t := ThreadNext(s, c, ok);
    assert CtxOk(s, c) && MainOk(s) && DestroyedOk(s);
    forall d | d in t.ctxs
      ensures CtxOk(t, d)
    {
      assert CtxOk(s, d);
    }
    forall bd | bd in t.active
      ensures EntryOk(t, bd)
    {
      assert EntryOk(s, bd);
    }
  }

  /** A context nobody points to any more can be destroyed. */
  lemma InvDestroy(s: State, c: CtxId, main: MainPc)
    requires Inv(s) && c in s.ctxs && !Registered(s.main, c, s.ctxs[c].pc)
    requires (main == s.main && InHand(main) != Some(c)) || (main == Listening && s.main == Discarding(c))
    ensures Inv(Destroy(s, c).(main := main))
  {
    hide OpenStream;
    var t := Destroy(s, c).(main := main);
    assert CtxOk(s, c) && MainOk(s) && DestroyedOk(s);
    forall d | d in t.ctxs
      ensures CtxOk(t, d)
    {
      assert CtxOk(s, d);
    }
    forall bd | bd in t.active
      ensures EntryOk(t, bd)
    {
      assert EntryOk(s, bd);
    }
  }

  lemma InvThread(s: State, c: CtxId, ok: bool)
    requires Inv(s) && c in s.ctxs
    ensures Inv(ThreadNext(s, c, ok))
  {
    hide Inv, CtxOk;
    match s.ctxs[c].pc
    case Unstarted =>
      assert s.ctxs[c := s.ctxs[c]] == s.ctxs;
    case Connecting => InvOpen(s, c, ok);
    case Handshaking(_) => InvAuthenticate(s, c, ok);
    case SettingLink(_) => InvLink(s, c, ok);
    case Pumping(_) => InvLink(s, c, ok);
    case ClearingLink(_) => InvLink(s, c, ok);
    case ClosingStream(_) => InvClose(s, c, ok);
    case Sleeping => InvClose(s, c, ok);
    case Releasing => InvRelease(s, c, ok);
    case Destroying =>
      InHandIsUnstarted(s, c);
      InvDestroy(s, c, s.main);
  }

  lemma InHandIsUnstarted(s: State, c: CtxId)
    requires Inv(s) && c in s.ctxs
    ensures s.ctxs[c].pc.Unstarted? <==> InHand(s.main) == Some(c)
  {
    assert CtxOk(s, c);
  }

  // ------------------------------------------------------------------
  // The manager loop keeps the invariant
  // ------------------------------------------------------------------

  /** A context in the map exists, and its link is open if it is set. */
  lemma KillIsSafe(s: State, c: CtxId)
    requires Inv(s) && c in s.active.Values
    ensures Kill(s, c) == s.(shut := Kill(s, c).shut)
  {
    var bd :| bd in s.active && s.active[bd] == c;
    assert EntryOk(s, bd);
    assert CtxOk(s, c);
  }

  /** Shutting streams down and moving the loop on, with nothing newly registered. */
  lemma InvMoveOn(s: State, shut: set<StreamId>, main: MainPc)
    requires Inv(s) && InHand(main) == InHand(s.main)
    requires !s.main.Spawning? && !s.main.Unclaiming? && !main.Spawning? && !main.Unclaiming?
    requires main.KillingOld? ==> main.prev in s.active.Values
    requires main.Revoking? ==> main.todo <= s.active.Values
    ensures Inv(s.(shut := shut, locked := main.KillingOld? || main.Revoking?, main := main))
  {
    hide OpenStream;
    var t := s.(shut := shut, locked := main.KillingOld? || main.Revoking?, main := main);
    assert MainOk(s) && DestroyedOk(s);
    forall d | d in t.ctxs
      ensures CtxOk(t, d)
    {
      assert CtxOk(s, d);
    }
    forall bd | bd in t.active
      ensures EntryOk(t, bd)
    {
      assert EntryOk(s, bd);
    }
  }

  lemma InvPut(s: State, c: CtxId)
    requires Inv(s) && s.main == Claiming(c) && !s.locked && c in s.ctxs && s.ctxs[c].bdaddr !in s.active
    ensures Inv(ClaimNext(s, c, true))
  {
    hide OpenStream;
    var t := ClaimNext(s, c, true);
    assert CtxOk(s, c) && MainOk(s) && DestroyedOk(s);
    forall d | d in t.ctxs
      ensures CtxOk(t, d)
    {
      assert CtxOk(s, d);
    }
    forall bd | bd in t.active
      ensures EntryOk(t, bd)
    {
      if bd in s.active {
        assert EntryOk(s, bd);
      }
    }
  }

  lemma InvClaim(s: State, c: CtxId, ok: bool)
    requires Inv(s) && s.main == Claiming(c)
    ensures Inv(ClaimNext(s, c, ok))
  {
    hide CtxOk, DestroyedOk;
    var bd := s.ctxs[c].bdaddr;
    if bd in s.active {
      assert EntryOk(s, bd);
      InvMoveOn(s, s.shut, ClaimNext(s, c, ok).main);
    } else if ok {
      InvPut(s, c);
    } else {
      InvMoveOn(s, s.shut, Discarding(c));
    }
  }

  lemma InvSpawn(s: State, c: CtxId, ok: bool, pick: CtxId)
    requires Inv(s) && s.main == Spawning(c)
    ensures Inv(MainNext(s, ok, pick))
  {
    var t := MainNext(s, ok, pick);
    assert CtxOk(s, c) && MainOk(s) && DestroyedOk(s);
    forall d | d in t.ctxs
      ensures CtxOk(t, d)
    {
      assert CtxOk(s, d);
    }
    forall bd | bd in t.active
      ensures EntryOk(t, bd)
    {
      assert EntryOk(s, bd);
    }
  }

  lemma InvUnclaim(s: State, c: CtxId, ok: bool, pick: CtxId)
    requires Inv(s) && s.main == Unclaiming(c)
    ensures Inv(MainNext(s, ok, pick))
  {
    hide OpenStream;
    var t := MainNext(s, ok, pick);
    assert CtxOk(s, c) && MainOk(s) && DestroyedOk(s);
    forall d | d in t.ctxs
      ensures CtxOk(t, d)
    {
      assert CtxOk(s, d);
    }
    forall bd | bd in t.active
      ensures EntryOk(t, bd)
    {
      assert EntryOk(s, bd);
    }
  }

  lemma RevokeIsSafe(s: State, keyed: set<BdAddr>, c: CtxId)
    requires Inv(s) && c in s.active.Values
    ensures RevokeNext(s, keyed, c) == s.(shut := RevokeNext(s, keyed, c).shut)
  {
    KillIsSafe(s, c);
    var bd :| bd in s.active && s.active[bd] == c;
    assert EntryOk(s, bd);
    hide CtxOk, DestroyedOk, MainOk, Kill;
  }

  lemma InvRevoking(s: State, ok: bool, pick: CtxId)
    requires Inv(s) && s.main.Revoking?
    ensures Inv(MainNext(s, ok, pick))
  {
    hide CtxOk, EntryOk, DestroyedOk, RevokeNext;
    var t := MainNext(s, ok, pick);
    if pick in s.main.todo {
      RevokeIsSafe(s, s.main.keyed, pick);
    }
    InvMoveOn(s, t.shut, t.main);
  }

  lemma InvKillingOld(s: State, ok: bool, pick: CtxId)
    requires Inv(s) && s.main.KillingOld?
    ensures Inv(MainNext(s, ok, pick))
  {
    hide CtxOk, EntryOk, DestroyedOk, Kill;
    KillIsSafe(s, s.main.prev);
    InvMoveOn(s, MainNext(s, ok, pick).shut, MainNext(s, ok, pick).main);
  }

  lemma InvMain(s: State, ok: bool, pick: CtxId)
    requires Inv(s)
    ensures Inv(MainNext(s, ok, pick))
  {
    hide CtxOk, EntryOk, DestroyedOk, Kill, ClaimNext;
    match s.main
    case Listening =>
    case Claiming(c) => InvClaim(s, c, ok);
    case KillingOld(_, _) => InvKillingOld(s, ok, pick);
    case Spawning(c) => InvSpawn(s, c, ok, pick);
    case Unclaiming(c) => InvUnclaim(s, c, ok, pick);
    case Discarding(c) =>
      InHandIsUnstarted(s, c);
      InvDestroy(s, c, Listening);
    case Revoking(_, _) => InvRevoking(s, ok, pick);
  }

  lemma InvStep(s: State, a: Action)
    requires Inv(s)
    ensures Inv(Step(s, a))
  {
    hide CtxOk, EntryOk, DestroyedOk, AnnounceNext, MainNext, ThreadNext;
    match a
    case Announce(bdaddr, ip) =>
      if s.main.Listening? {
        InvAnnounce(s, bdaddr, ip);
      }
    case Revoke(_) =>
      if s.main.Listening? && !s.locked {
        InvMoveOn(s, s.shut, Revoking(s.active.Values, a.keyed));
      }
    case MainStep(ok, pick) => InvMain(s, ok, pick);
    case ThreadStep(c, ok) =>
      if c in s.ctxs {
        InvThread(s, c, ok);
      }
  }

  lemma {:induction false} InvExec(s: State, run: seq<Action>)
    requires Inv(s)
    ensures Inv(Exec(s, run))
    decreases |run|
  {
    hide Inv, Step;
    if run != [] {
      InvStep(s, run[0]);
      InvExec(Step(s, run[0]), run[1..]);
    }
  }

  lemma InvInitial()
    ensures Inv(INITIAL)
  {
  }

  // ------------------------------------------------------------------
  // Main results
  // ------------------------------------------------------------------

  /** A thread between its connect and its close. */
  predicate Live(s: State, c: CtxId) {
    c in s.ctxs && OpenStream(s.ctxs[c].pc).Some?
  }

  /** In every run two live sessions are for two different boards. */
  lemma OneSessionPerBoard(run: seq<Action>, c: CtxId, d: CtxId)
    ensures var s := Exec(INITIAL, run);
      Live(s, c) && Live(s, d) && s.ctxs[c].bdaddr == s.ctxs[d].bdaddr ==> c == d
  {
    hide Exec;
    var s := Exec(INITIAL, run);
    InvInitial();
    InvExec(INITIAL, run);
    if Live(s, c) && Live(s, d) {
      assert CtxOk(s, c) && CtxOk(s, d);
    }
  }

  /** In every run each entry of the map is for a context that has not been destroyed. */
  lemma EntriesExist(run: seq<Action>, bd: BdAddr)
    ensures var s := Exec(INITIAL, run);
      bd in s.active ==>
        s.active[bd] in s.ctxs && s.ctxs[s.active[bd]].bdaddr == bd && s.active[bd] !in s.destroyed
  {
    hide Exec;
    var s := Exec(INITIAL, run);
    InvInitial();
    InvExec(INITIAL, run);
    if bd in s.active {
      assert EntryOk(s, bd);
      assert DestroyedOk(s);
    }
  }

  /** In every run a context is destroyed at most once and never used after that. */
  lemma DestroyedOnce(run: seq<Action>, i: nat, j: nat)
    ensures var s := Exec(INITIAL, run);
      && !s.danglingUse
      && (i < j < |s.destroyed| ==>
        s.destroyed[i] != s.destroyed[j])
      && (i < |s.destroyed| ==>
        s.destroyed[i] !in s.ctxs)
  {
    hide Exec, CtxOk, EntryOk, MainOk;
    InvInitial();
    InvExec(INITIAL, run);
    assert DestroyedOk(Exec(INITIAL, run));
  }

  /** Conservation: the contexts ever created are the living ones and the destroyed ones. */
  ghost predicate Conserved(s: State) {
    forall c: CtxId :: c < s.next <==> c in s.ctxs || c in s.destroyed
  }

  lemma ConservedStep(s: State, a: Action)
    requires Inv(s) && Conserved(s)
    ensures Conserved(Step(s, a))
  {
    hide CtxOk, EntryOk, MainNext, ThreadNext;
    match a
    case Announce(bdaddr, ip) =>
    case Revoke(_) =>
    case MainStep(ok, pick) => ConservedMain(s, ok, pick);
    case ThreadStep(c, ok) =>
      if c in s.ctxs {
        ConservedThread(s, c, ok);
      }
  }

  lemma ConservedThread(s: State, c: CtxId, ok: bool)
    requires Inv(s) && Conserved(s) && c in s.ctxs
    ensures Conserved(ThreadNext(s, c, ok))
  {
    hide CtxOk, EntryOk, MainOk, DestroyedOk;
    match s.ctxs[c].pc
    case Unstarted =>
    case Connecting =>
    case Handshaking(_) =>
    case SettingLink(_) =>
    case Pumping(_) =>
    case ClearingLink(_) =>
    case ClosingStream(_) =>
    case Sleeping =>
    case Releasing =>
    case Destroying =>
  }

  lemma ConservedMain(s: State, ok: bool, pick: CtxId)
    requires Inv(s) && Conserved(s)
    ensures Conserved(MainNext(s, ok, pick))
  {
    hide CtxOk, EntryOk;
    match s.main
    case Listening =>
    case Claiming(c) =>
    case KillingOld(_, _) =>
    case Spawning(c) =>
    case Unclaiming(c) =>
    case Discarding(c) =>
    case Revoking(_, _) =>
  }

  lemma {:induction false} ConservedExec(s: State, run: seq<Action>)
    requires Inv(s) && Conserved(s)
    ensures Conserved(Exec(s, run))
    decreases |run|
  {
    hide Inv, Step;
    if run != [] {
      InvStep(s, run[0]);
      ConservedStep(s, run[0]);
      ConservedExec(Step(s, run[0]), run[1..]);
    }
  }

  /** In every run each context created so far either still exists or is in the list of destroyed ones once. */
  lemma NoContextLeaks(run: seq<Action>, c: CtxId)
    ensures var s := Exec(INITIAL, run);
      c < s.next <==> multiset(s.destroyed)[c] + (if c in s.ctxs then 1 else 0) == 1
  {
    hide Exec, CtxOk, EntryOk, MainOk;
    var s := Exec(INITIAL, run);
    InvInitial();
    InvExec(INITIAL, run);
    ConservedExec(INITIAL, run);
    assert DestroyedOk(s);
    NoDuplicates(s.destroyed, c);
  }

  lemma {:induction false} NoDuplicates(xs: seq<CtxId>, c: CtxId)
    requires forall i, j :: 0 <= i < j < |xs| ==> xs[i] != xs[j]
    ensures multiset(xs)[c] == if c in xs then 1 else 0
  {
    if xs != [] {
      NoDuplicates(xs[1..], c);
      assert xs == [xs[0]] + xs[1..];
    }
  }

  /** In every run no stream is shut down after its thread has closed it. */
  lemma NeverShutAfterClose(run: seq<Action>)
    ensures !Exec(INITIAL, run).shutAfterClose
  {
    hide Exec, CtxOk, EntryOk, MainOk;
    InvInitial();
    InvExec(INITIAL, run);
  }

  /** In every run a session's stream can be killed exactly while its thread pumps on it: the link is published before and
      withdrawn after, and always before the stream is closed. */
  lemma LinkedWhilePumping(run: seq<Action>, c: CtxId, st: StreamId)
    requires c in Exec(INITIAL, run).ctxs
    ensures
      var s := Exec(INITIAL, run);
      && (s.ctxs[c].link == Some(st) <==> s.ctxs[c].pc == Pumping(st) || s.ctxs[c].pc == ClearingLink(st))
      && (s.ctxs[c].link == Some(st) ==> st !in s.closed)
  {
    hide Exec;
    InvInitial();
    InvExec(INITIAL, run);
    assert CtxOk(Exec(INITIAL, run), c);
  }

  /** In every run a board stays claimed from the start of its thread through the back-off after its session, so a
      flapping board cannot start a second one. */
  lemma ClaimedThroughBackoff(run: seq<Action>, c: CtxId)
    requires c in Exec(INITIAL, run).ctxs
    ensures
      var s := Exec(INITIAL, run);
      !s.ctxs[c].pc.Unstarted? && !s.ctxs[c].pc.Destroying? ==>
        s.ctxs[c].bdaddr in s.active && s.active[s.ctxs[c].bdaddr] == c
  {
    hide Exec;
    InvInitial();
    InvExec(INITIAL, run);
    assert CtxOk(Exec(INITIAL, run), c);
  }

  /** A thread that has not begun its back-off. */
  predicate BeforeBackoff(s: State, c: CtxId) {
    c in s.ctxs && !s.ctxs[c].pc.Sleeping? && !s.ctxs[c].pc.Releasing? && !s.ctxs[c].pc.Destroying?
  }

  lemma OwnTowardsBackoff(x: BoardCtx, next: StreamId, locked: bool, ok: bool)
    requires !x.pc.Sleeping? && !x.pc.Releasing? && !x.pc.Destroying?
    ensures var y := OwnNext(x, next, locked, ok); !y.pc.Releasing? && !y.pc.Destroying?
  {
  }

  lemma TowardsBackoff(s: State, a: Action, c: CtxId)
    requires BeforeBackoff(s, c) && c < s.next
    ensures
      var t := Step(s, a);
      c in t.ctxs ==> BeforeBackoff(t, c) || t.ctxs[c].pc.Sleeping?
  {
    match a
    case Announce(_, _) =>
    case Revoke(_) =>
    case MainStep(ok, pick) => MainTowardsBackoff(s, ok, pick, c);
    case ThreadStep(d, ok) =>
      if d in s.ctxs {
        ThreadTouchesOwn(s, d, ok, c);
        if d == c {
          OwnTowardsBackoff(s.ctxs[c], s.nextStream, s.locked, ok);
        }
      }
      hide OwnNext;
  }

  /** Numbers of contexts are not used again. */
  lemma GoneStep(s: State, a: Action, c: CtxId)
    requires c !in s.ctxs && c < s.next
    ensures c !in Step(s, a).ctxs && c < Step(s, a).next
  {
    match a
    case Announce(_, _) =>
    case Revoke(_) =>
    case MainStep(ok, pick) => GoneMain(s, ok, pick, c);
    case ThreadStep(d, ok) =>
      hide OwnNext;
  }

  lemma KillKeepsCtxs(s: State, c: CtxId)
    ensures Kill(s, c).ctxs == s.ctxs && Kill(s, c).next == s.next
  {
  }

  lemma ClaimKeepsCtxs(s: State, c: CtxId, ok: bool)
    ensures ClaimNext(s, c, ok).ctxs == s.ctxs && ClaimNext(s, c, ok).next == s.next
  {
  }

  lemma GoneMain(s: State, ok: bool, pick: CtxId, c: CtxId)
    requires c !in s.ctxs
    ensures c !in MainNext(s, ok, pick).ctxs && MainNext(s, ok, pick).next == s.next
  {
    hide Kill, ClaimNext;
    match s.main
    case Listening =>
    case Claiming(d) => ClaimKeepsCtxs(s, d, ok);
    case KillingOld(_, prev) => KillKeepsCtxs(s, prev);
    case Spawning(_) =>
    case Unclaiming(_) =>
    case Discarding(_) =>
    case Revoking(_, _) => KillKeepsCtxs(s, pick);
  }

  lemma {:induction false} GoneExec(s: State, run: seq<Action>, c: CtxId)
    requires c !in s.ctxs && c < s.next
    ensures c !in Exec(s, run).ctxs
    decreases |run|
  {
    hide Step;
    if run != [] {
      GoneStep(s, run[0], c);
      GoneExec(Step(s, run[0]), run[1..], c);
    }
  }

  lemma NextStep(s: State, a: Action)
    ensures s.next <= Step(s, a).next
  {
    match a
    case Announce(_, _) =>
    case Revoke(_) =>
    case MainStep(ok, pick) => NextMain(s, ok, pick);
    case ThreadStep(d, ok) =>
      hide OwnNext;
  }

  lemma NextMain(s: State, ok: bool, pick: CtxId)
    ensures MainNext(s, ok, pick).next == s.next
  {
    hide Kill, ClaimNext;
    match s.main
    case Listening =>
    case Claiming(d) => ClaimKeepsCtxs(s, d, ok);
    case KillingOld(_, prev) => KillKeepsCtxs(s, prev);
    case Spawning(_) =>
    case Unclaiming(_) =>
    case Discarding(_) =>
    case Revoking(_, _) => KillKeepsCtxs(s, pick);
  }

  lemma MainTowardsBackoff(s: State, ok: bool, pick: CtxId, c: CtxId)
    requires BeforeBackoff(s, c)
    ensures
      var t := MainNext(s, ok, pick);
      c in t.ctxs ==> BeforeBackoff(t, c)
  {
    hide Kill, ClaimNext;
    match s.main
    case Listening =>
    case Claiming(d) => ClaimKeepsCtxs(s, d, ok);
    case KillingOld(_, prev) => KillKeepsCtxs(s, prev);
    case Spawning(_) =>
    case Unclaiming(_) =>
    case Discarding(_) =>
    case Revoking(_, _) => KillKeepsCtxs(s, pick);
  }

  /** In every run a thread sleeps between its session and giving its board up. */
  lemma {:induction false} SleepsBeforeRelease(s: State, run: seq<Action>, c: CtxId)
    requires BeforeBackoff(s, c) && c < s.next
    requires var t := Exec(s, run); c in t.ctxs && (t.ctxs[c].pc.Releasing? || t.ctxs[c].pc.Destroying?)
    ensures exists i :: 0 <= i <= |run| && c in Exec(s, run[..i]).ctxs && Exec(s, run[..i]).ctxs[c].pc.Sleeping?
    decreases |run|
  {
    var t := Step(s, run[0]);
    hide Step;
    TowardsBackoff(s, run[0], c);
    NextStep(s, run[0]);
    assert c in t.ctxs by {
      if c !in t.ctxs {
        GoneExec(t, run[1..], c);
      }
    }
    assert run[..1] == [run[0]] && run[..1][1..] == [];
    assert Exec(s, run[..1]) == Exec(t, []);
    if t.ctxs[c].pc.Sleeping? {
      assert c in Exec(s, run[..1]).ctxs && Exec(s, run[..1]).ctxs[c].pc.Sleeping?;
    } else {
      SleepsBeforeRelease(t, run[1..], c);
      var i :| 0 <= i <= |run[1..]| && c in Exec(t, run[1..][..i]).ctxs && Exec(t, run[1..][..i]).ctxs[c].pc.Sleeping?;
      assert run[..i + 1][1..] == run[1..][..i] && run[..i + 1][0] == run[0];
      assert Exec(s, run[..i + 1]) == Exec(t, run[1..][..i]);
    }
  }

  // ------------------------------------------------------------------
  // Revocation as a whole
  // ------------------------------------------------------------------

  /** The loop stays in revokeMissing. */
  predicate InRevocation(s: State, run: seq<Action>)
    decreases |run|
  {
    s.main.Revoking? && (run == [] || InRevocation(Step(s, run[0]), run[1..]))
  }

  /** c does not pump on st any more and never will again. */
  predicate Over(s: State, c: CtxId, st: StreamId)
    requires c in s.ctxs
  {
    var ctx := s.ctxs[c];
    st < s.nextStream && ctx.link != Some(st) && ctx.pc != Handshaking(st) && ctx.pc != SettingLink(st)
  }

  /** The stream st of c is shut down, given up by its thread, or c is still to be looked at. */
  predicate Doomed(s: State, c: CtxId, st: StreamId)
    requires c in s.ctxs && s.main.Revoking?
  {
    st in s.shut || Over(s, c, st) || (c in s.main.todo && s.ctxs[c].link == Some(st))
  }

  /** Streams are shut down by a revocation only where a board has no key. */
  predicate OnlyUnkeyed(s: State, was: set<StreamId>, active: map<BdAddr, CtxId>, keyed: set<BdAddr>) {
    forall st :: st in s.shut && st !in was ==>
      st in s.holder && s.holder[st] in s.ctxs && var bd := s.ctxs[s.holder[st]].bdaddr;
      bd !in keyed && bd in active && active[bd] == s.holder[st]
  }

  /** A thread changes no other context, and stream numbers only grow. */
  lemma ThreadTouchesOwn(s: State, d: CtxId, ok: bool, c: CtxId)
    requires c in s.ctxs && d in s.ctxs
    ensures
      var t := ThreadNext(s, d, ok);
      && s.nextStream <= t.nextStream
      && (c != d ==> c in t.ctxs && t.ctxs[c] == s.ctxs[c])
  {
    hide OwnNext;
  }

  lemma ThreadOwnCtx(s: State, c: CtxId, ok: bool)
    requires c in s.ctxs && c in ThreadNext(s, c, ok).ctxs
    ensures ThreadNext(s, c, ok).ctxs[c] == OwnNext(s.ctxs[c], s.nextStream, s.locked, ok)
  {
    hide OwnNext, SharedNext;
  }

  /** A link other than st, with no handshake on st under way, never becomes st. */
  lemma OwnNeverAgain(x: BoardCtx, next: StreamId, locked: bool, ok: bool, st: StreamId)
    requires st < next && x.link != Some(st) && x.pc != Handshaking(st) && x.pc != SettingLink(st)
    ensures var y := OwnNext(x, next, locked, ok); y.link != Some(st) && y.pc != Handshaking(st) && y.pc != SettingLink(st)
  {
  }

  lemma OwnKeepsOrEnds(x: BoardCtx, next: StreamId, locked: bool, ok: bool, st: StreamId)
    requires st < next && x.link == Some(st) && (x.pc == Pumping(st) || x.pc == ClearingLink(st))
    ensures
      var y := OwnNext(x, next, locked, ok);
      y.link == Some(st) || (y.link != Some(st) && y.pc != Handshaking(st) && y.pc != SettingLink(st))
  {
  }

  lemma OverThread(s: State, d: CtxId, ok: bool, c: CtxId, st: StreamId)
    requires c in s.ctxs && d in s.ctxs && Over(s, c, st) && c in ThreadNext(s, d, ok).ctxs
    ensures Over(ThreadNext(s, d, ok), c, st)
  {
    hide ThreadNext, OwnNext;
    ThreadTouchesOwn(s, d, ok, c);
    if c == d {
      ThreadOwnCtx(s, c, ok);
      OwnNeverAgain(s.ctxs[c], s.nextStream, s.locked, ok, st);
    }
  }

  /** A link that is set is kept by every thread step, or its thread gives the stream up for good. */
  lemma LinkThread(s: State, d: CtxId, ok: bool, c: CtxId, st: StreamId)
    requires Inv(s) && c in s.ctxs && d in s.ctxs && s.ctxs[c].link == Some(st) && c in ThreadNext(s, d, ok).ctxs
    ensures
      var t := ThreadNext(s, d, ok);
      t.ctxs[c].link == Some(st) || Over(t, c, st)
  {
    hide ThreadNext, OwnNext;
    assert CtxOk(s, c);
    hide Inv;
    ThreadTouchesOwn(s, d, ok, c);
    if c == d {
      ThreadOwnCtx(s, c, ok);
      OwnKeepsOrEnds(s.ctxs[c], s.nextStream, s.locked, ok, st);
    }
  }

  /** What threads cannot do while the mutex is held: leave the map, or touch what has been shut down. */
  lemma ThreadWhileLocked(s: State, d: CtxId, ok: bool)
    requires d in s.ctxs && s.locked
    ensures
      var t := ThreadNext(s, d, ok);
      t.main == s.main && t.locked && t.active == s.active && t.shut == s.shut
  {
    match s.ctxs[d].pc
    case Unstarted =>
    case Connecting =>
    case Handshaking(_) =>
    case SettingLink(_) =>
    case Pumping(_) =>
    case ClearingLink(_) =>
    case ClosingStream(_) =>
    case Sleeping =>
    case Releasing =>
    case Destroying =>
  }

  lemma EntryExists(s: State, bd: BdAddr)
    requires Inv(s) && bd in s.active
    ensures s.active[bd] in s.ctxs && s.ctxs[s.active[bd]].bdaddr == bd
  {
    assert EntryOk(s, bd);
  }

  /** One step of anyone, seen from a registered context without a key. */
  lemma DoomedStep(s: State, a: Action, bd: BdAddr, st: StreamId)
    requires Inv(s) && s.main.Revoking? && bd in s.active && bd !in s.main.keyed
    requires s.active[bd] in s.ctxs && Doomed(s, s.active[bd], st)
    requires Step(s, a).main.Revoking?
    ensures
      var t := Step(s, a);
      && t.active == s.active && t.main.keyed == s.main.keyed
      && s.active[bd] in t.ctxs && Doomed(t, s.active[bd], st)
  {
    var c := s.active[bd];
    InvStep(s, a);
    EntryExists(s, bd);
    assert s.locked by { assert MainOk(s); }
    match a
    case Announce(_, _) =>
    case Revoke(_) =>
    case MainStep(ok, pick) =>
      if pick in s.main.todo {
        RevokeIsSafe(s, s.main.keyed, pick);
      }
      hide Inv;
    case ThreadStep(d, ok) =>
      if d in s.ctxs {
        ThreadWhileLocked(s, d, ok);
        EntryExists(Step(s, a), bd);
        DoomedThread(s, d, ok, c, st);
      }
  }

  lemma DoomedThread(s: State, d: CtxId, ok: bool, c: CtxId, st: StreamId)
    requires Inv(s) && s.main.Revoking? && s.locked && c in s.ctxs && d in s.ctxs && Doomed(s, c, st)
    requires c in ThreadNext(s, d, ok).ctxs
    ensures ThreadNext(s, d, ok).main == s.main && Doomed(ThreadNext(s, d, ok), c, st)
  {
    hide Inv, ThreadNext, Over;
    ThreadWhileLocked(s, d, ok);
    if Over(s, c, st) {
      OverThread(s, d, ok, c, st);
    } else if s.ctxs[c].link == Some(st) {
      LinkThread(s, d, ok, c, st);
    }
  }

  lemma {:induction false} DoomedExec(s: State, run: seq<Action>, bd: BdAddr, st: StreamId)
    requires Inv(s) && InRevocation(s, run) && bd in s.active && bd !in s.main.keyed
    requires s.active[bd] in s.ctxs && Doomed(s, s.active[bd], st)
    ensures
      var t := Exec(s, run);
      && t.main.Revoking? && t.active == s.active && Inv(t)
      && s.active[bd] in t.ctxs && Doomed(t, s.active[bd], st)
    decreases |run|
  {
    hide Inv, Step, Doomed;
    if run != [] {
      DoomedStep(s, run[0], bd, st);
      InvStep(s, run[0]);
      DoomedExec(Step(s, run[0]), run[1..], bd, st);
    }
  }

  /** The whole of a revocation, in every run and with the threads running all the while: from taking the mutex to giving
      it back the map does not change, and every board in it without a key that had its link set and still has it set at
      the end has had that stream shut down. */
  lemma RevocationIsComplete(before: seq<Action>, keyed: set<BdAddr>, run: seq<Action>, ok: bool, pick: CtxId,
                             bd: BdAddr, st: StreamId)
    requires
      var s := Exec(INITIAL, before);
      && s.main.Listening? && !s.locked && bd in s.active && bd !in keyed && s.active[bd] in s.ctxs
      && s.ctxs[s.active[bd]].link == Some(st)
      && InRevocation(Step(s, Revoke(keyed)), run)
      && Step(Exec(Step(s, Revoke(keyed)), run), MainStep(ok, pick)).main.Listening?
    ensures
      var s := Exec(INITIAL, before);
      var t := Step(Exec(Step(s, Revoke(keyed)), run), MainStep(ok, pick));
      && t.active == s.active && s.active[bd] in t.ctxs
      && (t.ctxs[s.active[bd]].link == Some(st) ==> st in t.shut)
  {
    hide Inv, Exec;
    var s := Exec(INITIAL, before);
    InvInitial();
    InvExec(INITIAL, before);
    InvStep(s, Revoke(keyed));
    DoomedExec(Step(s, Revoke(keyed)), run, bd, st);
  }

  // ------------------------------------------------------------------
  // and nobody else
  // ------------------------------------------------------------------

  lemma SparedStep(s: State, a: Action, was: set<StreamId>)
    requires Inv(s) && s.main.Revoking? && Step(s, a).main.Revoking?
    requires OnlyUnkeyed(s, was, s.active, s.main.keyed)
    ensures
      var t := Step(s, a);
      t.active == s.active && t.main.keyed == s.main.keyed && OnlyUnkeyed(t, was, s.active, s.main.keyed)
  {
    assert s.locked by { assert MainOk(s); }
    match a
    case Announce(_, _) =>
    case Revoke(_) =>
    case MainStep(ok, pick) =>
      if pick in s.main.todo {
        assert pick in s.active.Values by { assert MainOk(s); }
        RevokeIsSafe(s, s.main.keyed, pick);
        RevokedStream(s, s.main.keyed, pick);
      }
      hide Inv;
    case ThreadStep(d, ok) =>
      if d in s.ctxs {
        ThreadWhileLocked(s, d, ok);
        SparedThread(s, d, ok, was, s.main.keyed);
      }
  }

  /** The stream that one look of the revocation shuts down belongs to a registered board without a key. */
  lemma RevokedStream(s: State, keyed: set<BdAddr>, c: CtxId)
    requires Inv(s) && c in s.active.Values
    ensures
      forall st :: st in RevokeNext(s, keyed, c).shut && st !in s.shut ==>
        && st in s.holder && s.holder[st] == c && c in s.ctxs
        && s.ctxs[c].bdaddr !in keyed && s.ctxs[c].bdaddr in s.active && s.active[s.ctxs[c].bdaddr] == c
  {
    var bd :| bd in s.active && s.active[bd] == c;
    assert EntryOk(s, bd);
    assert CtxOk(s, c);
  }

  lemma SparedThread(s: State, d: CtxId, ok: bool, was: set<StreamId>, keyed: set<BdAddr>)
    requires Inv(s) && s.locked && d in s.ctxs && OnlyUnkeyed(s, was, s.active, keyed)
    ensures OnlyUnkeyed(ThreadNext(s, d, ok), was, s.active, keyed)
  {
    var t := ThreadNext(s, d, ok);
    ThreadWhileLocked(s, d, ok);
    HolderKept(s, d, ok);
    InvThread(s, d, ok);
    forall st | st in t.shut && st !in was
      ensures st in t.holder && t.holder[st] in t.ctxs
      ensures var bd := t.ctxs[t.holder[st]].bdaddr; bd !in keyed && bd in s.active && s.active[bd] == t.holder[st]
    {
      EntryExists(t, s.ctxs[s.holder[st]].bdaddr);
    }
  }

  lemma HolderKept(s: State, d: CtxId, ok: bool)
    requires Inv(s) && d in s.ctxs
    ensures forall st :: st in s.holder ==> st in ThreadNext(s, d, ok).holder && ThreadNext(s, d, ok).holder[st] == s.holder[st]
  {
  }

  lemma {:induction false} SparedExec(s: State, run: seq<Action>, was: set<StreamId>)
    requires Inv(s) && InRevocation(s, run) && OnlyUnkeyed(s, was, s.active, s.main.keyed)
    ensures
      var t := Exec(s, run);
      && t.main.Revoking? && t.main.keyed == s.main.keyed && t.active == s.active
      && OnlyUnkeyed(t, was, s.active, s.main.keyed)
    decreases |run|
  {
    hide Inv, Step, OnlyUnkeyed;
    if run != [] {
      SparedStep(s, run[0], was);
      InvStep(s, run[0]);
      SparedExec(Step(s, run[0]), run[1..], was);
    }
  }

  /** The other half: a stream that a revocation has shut down belongs to a board of the map without a key. */
  lemma RevocationSparesOthers(before: seq<Action>, keyed: set<BdAddr>, run: seq<Action>)
    requires
      var s := Exec(INITIAL, before);
      s.main.Listening? && !s.locked && InRevocation(Step(s, Revoke(keyed)), run)
    ensures
      var s := Exec(INITIAL, before);
      OnlyUnkeyed(Exec(Step(s, Revoke(keyed)), run), s.shut, s.active, keyed)
  {
    hide Inv, Exec;
    var s := Exec(INITIAL, before);
    InvInitial();
    InvExec(INITIAL, before);
    InvStep(s, Revoke(keyed));
    SparedExec(Step(s, Revoke(keyed)), run, s.shut);
  }
}
