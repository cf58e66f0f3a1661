/** What becomes of one announce (host/manager.zig): from the moment the manager loop takes it up until the loop listens
    again, with the board threads running all the while. */
module ManagerClaims {
  import opened Bytes
  import opened Manager

  /** The loop is busy with context c, which stands for this announce. */
  predicate Handling(s: State, c: CtxId, bd: BdAddr, ip: Ip) {
    InHand(s.main) == Some(c) && c in s.ctxs && s.ctxs[c].bdaddr == bd && s.ctxs[c].ip == ip
  }

  /** The loop does not listen again before the end of the run. */
  predicate Busy(s: State, run: seq<Action>)
    decreases |run|
  {
    InHand(s.main).Some? && (run == [] || Busy(Step(s, run[0]), run[1..]))
  }

  /** All the loop's own steps find memory and threads. */
  predicate AllOk(run: seq<Action>) {
    forall i :: 0 <= i < |run| && run[i].MainStep? ==> run[i].ok
  }

  // ------------------------------------------------------------------
  // Threads
  // ------------------------------------------------------------------

  /** Threads register nobody, keep addresses, leave the loop and what has been shut down alone, and do not touch contexts
      that have no thread yet. */
  lemma ThreadFrame(s: State, d: CtxId, ok: bool, x: CtxId, bd: BdAddr)
    requires d in s.ctxs
    ensures
      var t := ThreadNext(s, d, ok);
      && t.main == s.main && t.shut == s.shut && t.locked == s.locked
      && (bd in t.active ==> bd in s.active && t.active[bd] == s.active[bd])
      && (x in t.ctxs ==> x in s.ctxs && t.ctxs[x].bdaddr == s.ctxs[x].bdaddr && t.ctxs[x].ip == s.ctxs[x].ip)
      && (x in s.ctxs && s.ctxs[x].pc.Unstarted? ==> x in t.ctxs)
  {
    OwnKeepsAddress(s.ctxs[d], s.nextStream, s.locked, ok);
    SharedFrame(s, d, ok, bd);
    hide OwnNext, SharedNext;
  }

  lemma SharedFrame(s: State, d: CtxId, ok: bool, bd: BdAddr)
    requires d in s.ctxs
    ensures
      var t := SharedNext(s, d, ok);
      && t.main == s.main && t.shut == s.shut && t.locked == s.locked
      && (bd in t.active ==> bd in s.active && t.active[bd] == s.active[bd])
  {
  }

  lemma OwnKeepsAddress(x: BoardCtx, next: StreamId, locked: bool, ok: bool)
    ensures var y := OwnNext(x, next, locked, ok); y.bdaddr == x.bdaddr && y.ip == x.ip
  {
  }

  lemma HandlingThread(s: State, d: CtxId, ok: bool, c: CtxId, bd: BdAddr, ip: Ip)
    requires Inv(s) && Handling(s, c, bd, ip) && d in s.ctxs
    ensures Handling(ThreadNext(s, d, ok), c, bd, ip)
  {
    hide ThreadNext;
    InHandIsUnstarted(s, c);
    ThreadFrame(s, d, ok, c, bd);
  }

  lemma HandlingMain(s: State, ok: bool, pick: CtxId, c: CtxId, bd: BdAddr, ip: Ip)
    requires Inv(s) && Handling(s, c, bd, ip) && InHand(MainNext(s, ok, pick).main).Some?
    ensures Handling(MainNext(s, ok, pick), c, bd, ip)
  {
    assert MainOk(s);
    hide Inv;
    match s.main
    case Claiming(_) =>
    case KillingOld(_, _) =>
    case Spawning(_) =>
    case Unclaiming(_) =>
    case Discarding(_) =>
  }

  // ------------------------------------------------------------------
  // A board that is new, or known at the same address
  // ------------------------------------------------------------------

  /** Nothing has been shut down for it, and nothing will be. */
  predicate Peaceful(s: State, c: CtxId, bd: BdAddr, ip: Ip) {
    && Handling(s, c, bd, ip) && !s.main.KillingOld?
    && (s.main.Claiming? && bd in s.active ==> s.active[bd] in s.ctxs && s.ctxs[s.active[bd]].ip == ip)
  }

  lemma PeacefulMain(s: State, ok: bool, pick: CtxId, c: CtxId, bd: BdAddr, ip: Ip)
    requires Inv(s) && Peaceful(s, c, bd, ip)
    ensures
      var t := MainNext(s, ok, pick);
      t.shut == s.shut && (InHand(t.main).Some? ==> Peaceful(t, c, bd, ip))
  {
    if InHand(MainNext(s, ok, pick).main).Some? {
      HandlingMain(s, ok, pick, c, bd, ip);
    }
    assert MainOk(s);
    hide Inv;
    match s.main
    case Claiming(_) =>
    case Spawning(_) =>
    case Unclaiming(_) =>
    case Discarding(_) =>
  }

  lemma PeacefulStep(s: State, a: Action, c: CtxId, bd: BdAddr, ip: Ip)
    requires Inv(s) && Peaceful(s, c, bd, ip)
    ensures
      var t := Step(s, a);
      t.shut == s.shut && (InHand(t.main).Some? ==> Peaceful(t, c, bd, ip))
  {
    hide MainNext, ThreadNext;
    match a
    case Announce(_, _) =>
    case Revoke(_) =>
    case MainStep(ok, pick) => PeacefulMain(s, ok, pick, c, bd, ip);
    case ThreadStep(d, ok) =>
      if d in s.ctxs {
        HandlingThread(s, d, ok, c, bd, ip);
        InvThread(s, d, ok);
        var t := ThreadNext(s, d, ok);
        ThreadFrame(s, d, ok, c, bd);
        if bd in t.active {
          EntryExists(t, bd);
          ThreadFrame(s, d, ok, t.active[bd], bd);
        }
      }
  }

  lemma {:induction false} PeacefulExec(s: State, run: seq<Action>, c: CtxId, bd: BdAddr, ip: Ip)
    requires Inv(s) && Peaceful(s, c, bd, ip) && Busy(s, run)
    ensures Exec(s, run).shut == s.shut && Peaceful(Exec(s, run), c, bd, ip) && Inv(Exec(s, run))
    decreases |run|
  {
    hide Inv, Step, Peaceful;
    if run != [] {
      PeacefulStep(s, run[0], c, bd, ip);
      InvStep(s, run[0]);
      PeacefulExec(Step(s, run[0]), run[1..], c, bd, ip);
    }
  }

  lemma AnnounceIsHandled(s: State, bd: BdAddr, ip: Ip)
    requires Inv(s) && s.main.Listening?
    ensures
      var t := Step(s, Announce(bd, ip));
      && t.main == Claiming(s.next) && Handling(t, s.next, bd, ip) && t.active == s.active && t.shut == s.shut
      && (forall d :: d in s.ctxs ==> d in t.ctxs && t.ctxs[d] == s.ctxs[d])
      && t.nextStream == s.nextStream
  {
    assert forall d :: d in s.ctxs ==> CtxOk(s, d);
  }

  /** In every run: an announce for a board that is not in the map, or is there at the same address, shuts nothing down
      from beginning to end. */
  lemma SameAddressSparesLinks(before: seq<Action>, bd: BdAddr, ip: Ip, run: seq<Action>, ok: bool, pick: CtxId)
    requires var s := Exec(INITIAL, before);
      && s.main.Listening?
      && (bd in s.active && s.active[bd] in s.ctxs ==> s.ctxs[s.active[bd]].ip == ip)
      && Busy(Step(s, Announce(bd, ip)), run)
    ensures
      var s := Exec(INITIAL, before);
      var t := Exec(Step(s, Announce(bd, ip)), run);
      t.shut == s.shut && Step(t, MainStep(ok, pick)).shut == s.shut
  {
    hide Exec, Inv;
    var s := Exec(INITIAL, before);
    InvInitial();
    InvExec(INITIAL, before);
    AnnounceIsHandled(s, bd, ip);
    InvStep(s, Announce(bd, ip));
    var s1 := Step(s, Announce(bd, ip));
    if bd in s.active {
      EntryExists(s, bd);
    }
    hide Step;
    PeacefulExec(s1, run, s.next, bd, ip);
    PeacefulStep(Exec(s1, run), MainStep(ok, pick), s.next, bd, ip);
  }

  // ------------------------------------------------------------------
  // A board that is back from another address
  // ------------------------------------------------------------------

  /** The old stream is shut down, given up by its thread, or will be dealt with. */
  predicate Settling(s: State, c: CtxId, bd: BdAddr, ip: Ip, prev: CtxId, st: StreamId) {
    && Handling(s, c, bd, ip)
    && (|| st in s.shut
        || prev !in s.ctxs
        || Over(s, prev, st)
        || (s.ctxs[prev].link == Some(st) && s.ctxs[prev].bdaddr == bd && s.ctxs[prev].ip != ip
            && (s.main == Claiming(c) || s.main == KillingOld(c, prev))))
  }

  /** A link that is set belongs to a thread whose context is in the map. */
  lemma LinkedIsRegistered(s: State, x: CtxId)
    requires Inv(s) && x in s.ctxs && s.ctxs[x].link.Some?
    ensures s.ctxs[x].bdaddr in s.active && s.active[s.ctxs[x].bdaddr] == x
  {
    assert CtxOk(s, x);
  }

  /** The claim finds the old context in the map, at another address. */
  lemma SettlingClaim(s: State, ok: bool, c: CtxId, bd: BdAddr, ip: Ip, prev: CtxId, st: StreamId)
    requires Inv(s) && Settling(s, c, bd, ip, prev, st) && prev != c && s.main == Claiming(c)
    ensures Settling(ClaimNext(s, c, ok), c, bd, ip, prev, st)
  {
    if prev in s.ctxs && s.ctxs[prev].link == Some(st) {
      LinkedIsRegistered(s, prev);
    }
    assert !s.locked by { assert MainOk(s); }
    hide Inv;
  }

  lemma SettlingKill(s: State, c: CtxId, bd: BdAddr, ip: Ip, prev: CtxId, st: StreamId)
    requires Settling(s, c, bd, ip, prev, st) && prev != c && s.main.KillingOld?
    ensures Settling(Kill(s, s.main.prev).(locked := false, main := Discarding(c)), c, bd, ip, prev, st)
  {
    KillFrame(s, s.main.prev);
    hide Kill;
  }

  lemma KillFrame(s: State, x: CtxId)
    ensures
      var t := Kill(s, x);
      && t == s.(shut := t.shut, danglingUse := t.danglingUse, shutAfterClose := t.shutAfterClose)
      && s.shut <= t.shut && (x in s.ctxs && s.ctxs[x].link.Some? ==> s.ctxs[x].link.value in t.shut)
  {
  }

  lemma SettlingMain(s: State, ok: bool, pick: CtxId, c: CtxId, bd: BdAddr, ip: Ip, prev: CtxId, st: StreamId)
    requires Inv(s) && Settling(s, c, bd, ip, prev, st) && prev != c && InHand(MainNext(s, ok, pick).main).Some?
    ensures Settling(MainNext(s, ok, pick), c, bd, ip, prev, st)
  {
    HandlingMain(s, ok, pick, c, bd, ip);
    assert MainOk(s);
    hide ClaimNext, Kill, Inv;
    match s.main
    case Claiming(_) => SettlingClaim(s, ok, c, bd, ip, prev, st);
    case KillingOld(_, _) => SettlingKill(s, c, bd, ip, prev, st);
    case Spawning(_) =>
    case Unclaiming(_) =>
    case Discarding(_) =>
  }

  lemma SettlingThread(s: State, d: CtxId, ok: bool, c: CtxId, bd: BdAddr, ip: Ip, prev: CtxId, st: StreamId)
    requires Inv(s) && Settling(s, c, bd, ip, prev, st) && d in s.ctxs
    ensures Settling(ThreadNext(s, d, ok), c, bd, ip, prev, st)
  {
    hide ThreadNext, Over;
    HandlingThread(s, d, ok, c, bd, ip);
    ThreadFrame(s, d, ok, prev, bd);
    if prev in s.ctxs && prev in ThreadNext(s, d, ok).ctxs {
      if Over(s, prev, st) {
        OverThread(s, d, ok, prev, st);
      } else if s.ctxs[prev].link == Some(st) {
        LinkThread(s, d, ok, prev, st);
      }
    }
  }

  lemma SettlingStep(s: State, a: Action, c: CtxId, bd: BdAddr, ip: Ip, prev: CtxId, st: StreamId)
    requires Inv(s) && Settling(s, c, bd, ip, prev, st) && prev != c && InHand(Step(s, a).main).Some?
    ensures Settling(Step(s, a), c, bd, ip, prev, st)
  {
    hide MainNext, ThreadNext;
    match a
    case Announce(_, _) =>
    case Revoke(_) =>
    case MainStep(ok, pick) => SettlingMain(s, ok, pick, c, bd, ip, prev, st);
    case ThreadStep(d, ok) =>
      if d in s.ctxs {
        SettlingThread(s, d, ok, c, bd, ip, prev, st);
      }
  }

  lemma {:induction false} SettlingExec(s: State, run: seq<Action>, c: CtxId, bd: BdAddr, ip: Ip, prev: CtxId, st: StreamId)
    requires Inv(s) && Settling(s, c, bd, ip, prev, st) && prev != c && Busy(s, run)
    ensures Settling(Exec(s, run), c, bd, ip, prev, st) && Inv(Exec(s, run))
    decreases |run|
  {
    hide Inv, Step, Settling;
    if run != [] {
      SettlingStep(s, run[0], c, bd, ip, prev, st);
      InvStep(s, run[0]);
      SettlingExec(Step(s, run[0]), run[1..], c, bd, ip, prev, st);
    }
  }

  /** The handling ends with a thread started or the context given back. */
  lemma LastIs(s: State, ok: bool, pick: CtxId)
    requires InHand(s.main).Some? && MainNext(s, ok, pick).main.Listening?
    ensures s.main.Spawning? || s.main.Discarding?
  {
    match s.main
    case Claiming(_) =>
    case KillingOld(_, _) =>
    case Spawning(_) =>
    case Unclaiming(_) =>
    case Discarding(_) =>
  }

  /** The step that ends the handling leaves links and shut streams alone. */
  lemma LastStep(s: State, ok: bool, pick: CtxId, c: CtxId, bd: BdAddr, ip: Ip, prev: CtxId, st: StreamId)
    requires Inv(s) && Settling(s, c, bd, ip, prev, st) && prev != c && MainNext(s, ok, pick).main.Listening?
    ensures
      var t := MainNext(s, ok, pick);
      prev in t.ctxs && t.ctxs[prev].link == Some(st) ==> st in t.shut
  {
    LastIs(s, ok, pick);
    hide Inv, ClaimNext, Kill;
  }

  /** In every run: an announce for a board in the map from another address ends with the board's old stream shut down,
      unless its thread has given that stream up in the meantime. */
  lemma NewAddressCutsLink(before: seq<Action>, bd: BdAddr, ip: Ip, run: seq<Action>, ok: bool, pick: CtxId, st: StreamId)
    requires var s := Exec(INITIAL, before);
      && s.main.Listening? && bd in s.active && s.active[bd] in s.ctxs
      && s.ctxs[s.active[bd]].ip != ip && s.ctxs[s.active[bd]].link == Some(st)
      && Busy(Step(s, Announce(bd, ip)), run)
      && Step(Exec(Step(s, Announce(bd, ip)), run), MainStep(ok, pick)).main.Listening?
    ensures
      var s := Exec(INITIAL, before);
      var t := Step(Exec(Step(s, Announce(bd, ip)), run), MainStep(ok, pick));
      s.active[bd] in t.ctxs && t.ctxs[s.active[bd]].link == Some(st) ==> st in t.shut
  {
    hide Exec;
    var s := Exec(INITIAL, before);
    InvInitial();
    InvExec(INITIAL, before);
    var prev := s.active[bd];
    EntryExists(s, bd);
    assert prev < s.next by { assert CtxOk(s, prev); }
    AnnounceIsHandled(s, bd, ip);
    InvStep(s, Announce(bd, ip));
    var s1 := Step(s, Announce(bd, ip));
    assert Settling(s1, s.next, bd, ip, prev, st);
    hide Inv, Settling;
    SettlingExec(s1, run, s.next, bd, ip, prev, st);
    LastStep(Exec(s1, run), ok, pick, s.next, bd, ip, prev, st);
  }

  // ------------------------------------------------------------------
  // A new board is attached
  // ------------------------------------------------------------------

  /** On the way in: not yet in the map, or in it with its thread about to be started. */
  predicate Entering(s: State, c: CtxId, bd: BdAddr, ip: Ip) {
    && Handling(s, c, bd, ip)
    && s.ctxs[c] == BoardCtx(bd, ip, None, Unstarted)
    && ((s.main == Claiming(c) && bd !in s.active) || (s.main == Spawning(c) && bd in s.active && s.active[bd] == c))
  }

  /** In the map with its thread started. */
  predicate Attached(s: State, c: CtxId, bd: BdAddr, ip: Ip) {
    && c in s.ctxs && s.ctxs[c] == BoardCtx(bd, ip, None, Connecting)
    && bd in s.active && s.active[bd] == c
  }

  lemma EnteringMain(s: State, pick: CtxId, c: CtxId, bd: BdAddr, ip: Ip)
    requires Inv(s) && Entering(s, c, bd, ip)
    ensures
      var t := MainNext(s, true, pick);
      if InHand(t.main).Some? then Entering(t, c, bd, ip) else Attached(t, c, bd, ip) && t.main.Listening?
  {
    assert MainOk(s);
    hide Inv;
  }

  lemma EnteringThread(s: State, d: CtxId, ok: bool, c: CtxId, bd: BdAddr, ip: Ip)
    requires Inv(s) && Entering(s, c, bd, ip) && d in s.ctxs
    ensures Entering(ThreadNext(s, d, ok), c, bd, ip)
  {
    InHandIsUnstarted(s, c);
    HandlingThread(s, d, ok, c, bd, ip);
    InvThread(s, d, ok);
    ThreadFrame(s, d, ok, c, bd);
    ThreadTouchesOwn(s, d, ok, c);
    var t := ThreadNext(s, d, ok);
    assert t.ctxs[c] == s.ctxs[c] by {
      if d == c {
        ThreadOwnCtx(s, c, ok);
      }
    }
    hide ThreadNext;
    assert CtxOk(t, c);
    hide Inv;
  }

  lemma {:induction false} EnteringExec(s: State, run: seq<Action>, c: CtxId, bd: BdAddr, ip: Ip)
    requires Inv(s) && Entering(s, c, bd, ip) && Busy(s, run) && AllOk(run)
    ensures Entering(Exec(s, run), c, bd, ip) && Inv(Exec(s, run))
    decreases |run|
  {
    if run != [] {
      var a := run[0];
      InvStep(s, a);
      hide Inv, MainNext, ThreadNext;
      match a {
        case Announce(_, _) =>
        case Revoke(_) =>
        case MainStep(ok, pick) => EnteringMain(s, pick, c, bd, ip);
        case ThreadStep(d, ok) =>
          if d in s.ctxs {
            EnteringThread(s, d, ok, c, bd, ip);
          }
      }
      hide Entering;
      EnteringExec(Step(s, a), run[1..], c, bd, ip);
    }
  }

  /** In every run: an announce for a board that is not in the map ends, if memory and threads are to be had, with that
      board in the map under a new context and its thread on its way to connect. */
  lemma NewBoardIsAttached(before: seq<Action>, bd: BdAddr, ip: Ip, run: seq<Action>, pick: CtxId)
    requires var s := Exec(INITIAL, before);
      && s.main.Listening? && bd !in s.active && AllOk(run)
      && Busy(Step(s, Announce(bd, ip)), run)
      && Step(Exec(Step(s, Announce(bd, ip)), run), MainStep(true, pick)).main.Listening?
    ensures
      var s := Exec(INITIAL, before);
      Attached(Step(Exec(Step(s, Announce(bd, ip)), run), MainStep(true, pick)), s.next, bd, ip)
  {
    hide Exec;
    var s := Exec(INITIAL, before);
    InvInitial();
    InvExec(INITIAL, before);
    AnnounceIsHandled(s, bd, ip);
    InvStep(s, Announce(bd, ip));
    var s1 := Step(s, Announce(bd, ip));
    assert Entering(s1, s.next, bd, ip);
    hide Inv, Entering;
    EnteringExec(s1, run, s.next, bd, ip);
    EnteringMain(Exec(s1, run), pick, s.next, bd, ip);
  }
}
