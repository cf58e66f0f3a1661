/** Firmware upload (ota_post in firmware/main/ota.c): the receive loop, flash, and activation. */
module Ota {
  import opened Bytes
  import opened MacLayout
  import opened Device
  import opened BoardAuth

  const OTA_MAX_RECV_TIMEOUTS: nat := 6
  const RECV_BUF: nat := 1024

  /** What a receive call finds: nothing in time, a closed or broken connection, or up to n bytes. */
  datatype Recv = Timeout | Interrupted | Arrives(n: nat)

  /** Calls on the OTA partition, in order, with their results. `Switch` is esp_ota_set_boot_partition. */
  datatype FlashOp =
    | Begin(ok: bool)
    | Write(data: seq<byte>, ok: bool)
    | Abort
    | End(ok: bool)
    | Switch(ok: bool)

  /** The uploaded body as the network delivers it, and the two header proofs if present. */
  datatype Request = Request(contentLen: nat, body: seq<byte>, auth: Option<Proof>, pre: Option<Proof>)

  /** Everything outside: receive results, flash results by call, and the partition's size if there is one. */
  datatype Env = Env(
    partition: Option<nat>, recv: nat -> Recv, beginOk: bool, writeOk: nat -> bool, endOk: bool, activateOk: bool)

  /** Bytes delivered by a call that asked for `want` with `left` of the body still to come. */
  function Delivered(r: Recv, want: nat, left: nat): nat {
    if r.Arrives? then Min(Min(r.n, want), left) else 0
  }

  /** How the loop ends: with the whole body in flash, or not; `at` is how much had been written. */
  datatype Outcome = Complete | Stopped(at: nat)

  /** The receive loop as a function: `calls` receives and `at` bytes done, `timeouts` in a row so far.
      It ends because every round takes bytes or uses up one of the six timeouts. */
  function Upload(env: Env, body: seq<byte>, len: nat, at: nat, calls: nat, timeouts: nat): Outcome
    requires at <= len && at <= |body| && timeouts < OTA_MAX_RECV_TIMEOUTS
    decreases len - at, OTA_MAX_RECV_TIMEOUTS - timeouts
  {
    if at == len then Complete
    else
      var r := env.recv(calls);
      if r.Timeout? then
        if timeouts + 1 < OTA_MAX_RECV_TIMEOUTS then Upload(env, body, len, at, calls + 1, timeouts + 1)
        else Stopped(at)
      else
        var n := Delivered(r, Min(len - at, RECV_BUF), |body| - at);
        if n == 0 || !env.writeOk(at) then Stopped(at)
        else Upload(env, body, len, at + n, calls + 1, 0)
  }

  /** The bytes of all writes, in order. */
  function Writes(ops: seq<FlashOp>): seq<byte> {
    if ops == [] then [] else (if ops[0].Write? then ops[0].data else []) + Writes(ops[1..])
  }

  lemma {:induction false} WritesConcat(a: seq<FlashOp>, b: seq<FlashOp>)
    ensures Writes(a + b) == Writes(a) + Writes(b)
  {
    if a == [] {
      assert a + b == b;
    } else {
      TailOfConcat(a, b);
      WritesConcat(a[1..], b);
      Assoc(if a[0].Write? then a[0].data else [], Writes(a[1..]), Writes(b));
    }
  }

  lemma WritesNothing(body: seq<byte>)
    ensures Writes([]) == body[..0]
  {
  }

  /** The next stretch of the body, written after everything before it. */
  lemma WritesExtend(ws: seq<FlashOp>, body: seq<byte>, at: nat, n: nat)
    requires at + n <= |body| && Writes(ws) == body[..at]
    ensures Writes(ws + [Write(body[at..at + n], true)]) == body[..at + n]
  {
    var chunk := [Write(body[at..at + n], true)];
    WritesConcat(ws, chunk);
    assert chunk[1..] == [];
    JoinSlices(body, 0, at, at + n);
  }

  /** Nothing but writes, and all of them have worked. */
  predicate AllWritten(ops: seq<FlashOp>) {
    forall i :: 0 <= i < |ops| ==> ops[i].Write? && ops[i].ok
  }

  /** How the use of an opened handle ends: aborted, also right after a write that failed, or ended; and the boot partition
      is switched only after a successful end. */
  predicate IsTail(tail: seq<FlashOp>) {
    || tail == [Abort]
    || (|tail| == 2 && tail[0].Write? && !tail[0].ok && tail[1] == Abort)
    || tail == [End(false)]
    || tail == [End(true), Switch(false)]
    || tail == [End(true), Switch(true)]
  }

  predicate Bracketed(ops: seq<FlashOp>, ws: seq<FlashOp>, tail: seq<FlashOp>) {
    AllWritten(ws) && IsTail(tail) && ops == [Begin(true)] + ws + tail
  }

  /** A handle that is opened is ended or aborted exactly once, nothing is written outside or after a write that failed, and
      the boot partition is switched only after a successful end. */
  ghost predicate WellUsed(ops: seq<FlashOp>) {
    ops == [] || ops == [Begin(false)] || exists ws, tail :: Bracketed(ops, ws, tail)
  }

  /** Every recorded result is what the flash returned for that call, a write by its offset. */
  predicate Truthful(ops: seq<FlashOp>, env: Env, at: nat) {
    ops == [] ||
    match ops[0]
    case Begin(ok) => ok == env.beginOk && Truthful(ops[1..], env, at)
    case Write(data, ok) => ok == env.writeOk(at) && Truthful(ops[1..], env, at + |data|)
    case Abort => Truthful(ops[1..], env, at)
    case End(ok) => ok == env.endOk && Truthful(ops[1..], env, at)
    case Switch(ok) => ok == env.activateOk && Truthful(ops[1..], env, at)
  }

  lemma {:induction false} TruthfulConcat(a: seq<FlashOp>, b: seq<FlashOp>, env: Env, at: nat)
    ensures Truthful(a + b, env, at) <==> Truthful(a, env, at) && Truthful(b, env, at + |Writes(a)|)
    decreases |a|
  {
    if a == [] {
      assert a + b == b;
    } else {
      TailOfConcat(a, b);
      TruthfulConcat(a[1..], b, env, if a[0].Write? then at + |a[0].data| else at);
    }
  }

  lemma TruthfulOne(op: FlashOp, env: Env, at: nat)
    ensures Truthful([op], env, at) <==>
      match op
      case Begin(ok) => ok == env.beginOk
      case Write(_, ok) => ok == env.writeOk(at)
      case Abort => true
      case End(ok) => ok == env.endOk
      case Switch(ok) => ok == env.activateOk
  {
    assert [op][1..] == [];
  }

  /** A write that failed is the last one: the abort follows, and no end or switch. */
  lemma FailedWriteAborts(ops: seq<FlashOp>, i: nat)
    requires WellUsed(ops) && i < |ops| && ops[i].Write? && !ops[i].ok
    ensures i == |ops| - 2 && ops[i + 1] == Abort && forall j :: 0 <= j < |ops| ==> !ops[j].End? && !ops[j].Switch?
  {
    var ws, tail :| Bracketed(ops, ws, tail);
    BracketedAt(ops, ws, tail, i);
    forall j | 0 <= j < |ops|
      ensures !ops[j].End? && !ops[j].Switch?
    {
      BracketedAt(ops, ws, tail, j);
    }
    BracketedAt(ops, ws, tail, i + 1);
  }

  lemma BracketedAt(ops: seq<FlashOp>, ws: seq<FlashOp>, tail: seq<FlashOp>, j: nat)
    requires Bracketed(ops, ws, tail)
    ensures |ops| == 1 + |ws| + |tail|
    ensures j < 1 + |ws| ==> if j == 0 then ops[j] == Begin(true) else ops[j].Write? && ops[j].ok
    ensures 1 + |ws| <= j < |ops| ==> ops[j] == tail[j - 1 - |ws|]
  {
    hide IsTail;
  }

  /** How far the upload gets if its proofs pass. */
  function FateOf(req: Request, env: Env): Fate {
    if !env.beginOk || !Upload(env, req.body, req.contentLen, 0, 0, 0).Complete? then Unreceived
    else if !env.endOk then Unended
    else if !env.activateOk then Unswitched
    else Switched
  }

  /** The request as the board's life cycle sees it; the digest is of what the Auth check is made on. */
  function EventOf(req: Request, env: Env, sha: seq<byte> -> seq<byte>): Event
    requires req.auth.Some? && req.pre.Some?
  {
    OtaRequest(req.contentLen, sha(req.body[..Min(req.contentLen, |req.body|)]), req.auth.value, req.pre.value, FateOf(req, env))
  }

  /** The request gets as far as its Pre check. */
  predicate Admissible(req: Request, env: Env) {
    req.auth.Some? && req.pre.Some? && env.partition.Some? && req.contentLen <= env.partition.value
  }

  /** When an upload is accepted, and what that does to the board. */
  lemma UploadVerdict(b: Board, req: Request, env: Env, sha: seq<byte> -> seq<byte>)
    requires Sane(b) && !b.restarting && req.auth.Some? && req.pre.Some? && req.contentLen < 0x1_0000_0000
    requires forall x :: |sha(x)| == DIGEST_LEN
    ensures
      var e := EventOf(req, env, sha);
      && (Accepts(b, e) <==>
            PreOk(b, MacLayout.Ota, req.contentLen, e.pre) && FateOf(req, env).Switched? && AuthOk(b, MacLayout.Ota, e.digest, e.auth))
      && Handle(b, e) == if Accepts(b, e) then Bump(b) else b
  {
    hide PreOk, AuthOk, FateOf;
  }

  /** The loop cannot complete on a body that is too short. */
  lemma {:induction false} CompleteHasBody(env: Env, body: seq<byte>, len: nat, at: nat, calls: nat, timeouts: nat)
    requires at <= len && at <= |body| && timeouts < OTA_MAX_RECV_TIMEOUTS
    ensures Upload(env, body, len, at, calls, timeouts).Complete? ==> len <= |body|
    decreases len - at, OTA_MAX_RECV_TIMEOUTS - timeouts
  {
    if at < len {
      var r := env.recv(calls);
      if r.Timeout? {
        if timeouts + 1 < OTA_MAX_RECV_TIMEOUTS {
          CompleteHasBody(env, body, len, at, calls + 1, timeouts + 1);
        }
      } else {
        var n := Delivered(r, Min(len - at, RECV_BUF), |body| - at);
        if n > 0 {
          CompleteHasBody(env, body, len, at + n, calls + 1, 0);
        }
      }
    }
  }

  predicate Moves(r: Recv) {
    r.Arrives? && r.n > 0
  }

  /** `k` timeouts, then bytes. */
  predicate QuietFor(recv: nat -> Recv, calls: nat, k: nat)
    decreases k
  {
    if k == 0 then Moves(recv(calls)) else recv(calls).Timeout? && QuietFor(recv, calls + 1, k - 1)
  }

  ghost predicate Soon(recv: nat -> Recv, calls: nat) {
    exists k: nat :: k < 6 && QuietFor(recv, calls, k)
  }

  /** Never six timeouts in a row, and the connection never breaks off. */
  ghost predicate Lively(recv: nat -> Recv) {
    forall calls: nat :: Soon(recv, calls)
  }

  /** The loop gets a whole body through a slow network: `k` more timeouts before the next bytes. */
  lemma {:induction false} LivelyUploadCompletes(
    env: Env, body: seq<byte>, len: nat, at: nat, calls: nat, timeouts: nat, k: nat)
    requires Lively(env.recv) && (forall i: nat :: env.writeOk(i)) && len <= |body|
    requires at <= len && timeouts + k < OTA_MAX_RECV_TIMEOUTS && QuietFor(env.recv, calls, k)
    ensures Upload(env, body, len, at, calls, timeouts).Complete?
    decreases len - at, OTA_MAX_RECV_TIMEOUTS - timeouts
  {
    if at < len {
      var r := env.recv(calls);
      if k > 0 {
        LivelyUploadCompletes(env, body, len, at, calls + 1, timeouts + 1, k - 1);
      } else {
        var n := Delivered(r, Min(len - at, RECV_BUF), |body| - at);
        assert Soon(env.recv, calls + 1);
        var next: nat :| next < OTA_MAX_RECV_TIMEOUTS && QuietFor(env.recv, calls + 1, next);
        LivelyUploadCompletes(env, body, len, at + n, calls + 1, 0, next);
      }
    }
  }

  /** One round asks for what is missing, at most 1024 bytes, and writes what comes of it. */
  lemma RoundTakes(env: Env, body: seq<byte>, len: nat, at: nat, calls: nat, timeouts: nat)
    requires at < len && at < |body| && timeouts < 6 && env.recv(calls).Arrives? && env.recv(calls).n > 0 && env.writeOk(at)
    ensures
      var n := Min(Min(env.recv(calls).n, Min(len - at, 1024)), |body| - at);
      n > 0 && Upload(env, body, len, at, calls, timeouts) == Upload(env, body, len, at + n, calls + 1, 0)
  {
  }

  /** Six timeouts in a row end it. */
  lemma StalledUploadStops(env: Env, body: seq<byte>, len: nat, at: nat, calls: nat)
    requires at < len && at <= |body| && forall i :: calls <= i < calls + 6 ==> env.recv(i).Timeout?
    ensures Upload(env, body, len, at, calls, 0) == Stopped(at)
  {
    StalledFrom(env, body, len, at, calls, 0);
  }

  lemma {:induction false} StalledFrom(env: Env, body: seq<byte>, len: nat, at: nat, calls: nat, timeouts: nat)
    requires at < len && at <= |body| && timeouts < 6
    requires forall i :: calls <= i < calls + 6 - timeouts ==> env.recv(i).Timeout?
    ensures Upload(env, body, len, at, calls, timeouts) == Stopped(at)
    decreases 6 - timeouts
  {
    if timeouts < 5 {
      StalledFrom(env, body, len, at, calls + 1, timeouts + 1);
    }
  }

  /** And so does a write that fails, wherever it is. */
  lemma FailedWriteStops(env: Env, body: seq<byte>, len: nat, at: nat, calls: nat, timeouts: nat)
    requires at < len && at <= |body| && timeouts < 6 && !env.recv(calls).Timeout? && !env.writeOk(at)
    ensures Upload(env, body, len, at, calls, timeouts) == Stopped(at)
  {
  }

  class Uploader {
    const board: AuthState
    var ops: seq<FlashOp>

    constructor (board: AuthState)
      ensures this.board == board && ops == []
    {
      this.board := board;
      ops := [];
    }

    /** The while loop: everything received goes to flash in order, until all of it is there, or something fails. */
    method ReceiveImage(req: Request, env: Env) returns (ok: bool, ghost ws: seq<FlashOp>, ghost tail: seq<FlashOp>)
      modifies this
      ensures ok <==> Upload(env, req.body, req.contentLen, 0, 0, 0).Complete?
      ensures ops == old(ops) + ws + tail && AllWritten(ws) && Truthful(ws + tail, env, 0)
      ensures ok ==> tail == [] && req.contentLen <= |req.body| && Writes(ws) == req.body[..req.contentLen]
      ensures !ok ==> IsTail(tail) && tail[|tail| - 1] == Abort && Writes(ws) <= req.body
    {
      hide Writes, Truthful, IsTail;
      var at, calls, timeouts := 0, 0, 0;
      ws, tail := [], [];
      WritesNothing(req.body);
      assert Truthful(ws, env, 0) by { NothingIsTruthful(env); }
      assert old(ops) + ws == old(ops);
      while at < req.contentLen
        invariant at <= req.contentLen && at <= |req.body| && timeouts < OTA_MAX_RECV_TIMEOUTS
        invariant Upload(env, req.body, req.contentLen, at, calls, timeouts)
               == Upload(env, req.body, req.contentLen, 0, 0, 0)
        invariant AllWritten(ws) && Writes(ws) == req.body[..at] && Truthful(ws, env, 0)
        invariant ops == old(ops) + ws
        decreases req.contentLen - at, OTA_MAX_RECV_TIMEOUTS - timeouts
      {
        var r := env.recv(calls);
        calls := calls + 1;
        if r.Timeout? {
          timeouts := timeouts + 1;
          if timeouts < OTA_MAX_RECV_TIMEOUTS {
            continue;
          }
          ops := ops + [Abort];
          AbortIsTail(ws, env);
          return false, ws, [Abort];
        }
        var n := Delivered(r, Min(req.contentLen - at, RECV_BUF), |req.body| - at);
        if n == 0 {
          ops := ops + [Abort];
          AbortIsTail(ws, env);
          return false, ws, [Abort];
        }
        timeouts := 0;
        var chunk := Write(req.body[at..at + n], env.writeOk(at));
        ops := ops + [chunk];
        WriteIsTruthful(ws, chunk, env, at);
        if !chunk.ok {
          ops := ops + [Abort];
          FailedWriteIsTail(old(ops), ws, chunk, env);
          return false, ws, [chunk, Abort];
        }
        WritesExtend(ws, req.body, at, n);
        Assoc(old(ops), ws, [chunk]);
        ws := ws + [chunk];
        at := at + n;
      }
      assert ws + [] == ws && old(ops) + ws + [] == old(ops) + ws;
      ok := true;
    }

    /** The handler. `trace` is what it did to the partition, with the results. */
    method OtaPost(req: Request, env: Env, sha: seq<byte> -> seq<byte>) returns (ok: bool, ghost trace: seq<FlashOp>)
      requires board.Valid() && !board.restarting
      requires forall x :: |sha(x)| == DIGEST_LEN
      requires env.partition.Some? ==> env.partition.value < 0x1_0000_0000
      modifies this, board`httpCounter
      ensures board.Valid()
      ensures ok <==> Admissible(req, env) && Accepts(old(board.View()), EventOf(req, env, sha))
      ensures board.View() ==
        if Admissible(req, env) then Handle(old(board.View()), EventOf(req, env, sha)) else old(board.View())
      ensures ops == old(ops) + trace && WellUsed(trace) && Truthful(trace, env, 0)
      ensures Switch(true) in trace <==> ok
      ensures ok ==> req.contentLen <= |req.body|
      ensures ok ==> |Writes(trace)| == req.contentLen && Writes(trace) == req.body[..req.contentLen]
      ensures trace != [] ==>
        && env.partition.Some? && req.contentLen <= env.partition.value
        && req.pre.Some? && PreOk(old(board.View()), MacLayout.Ota, req.contentLen, req.pre.value)
    {
      hide Upload, Layout, Handle, Accepts, Writes, Truthful, IsTail, Bracketed, AllWritten;
      if req.auth.Some? && req.pre.Some? && env.partition.Some? && req.contentLen <= env.partition.value {
        UploadVerdict(board.View(), req, env, sha);
      }
      trace := [];
      assert old(ops) + [] == old(ops);
      assert Truthful([], env, 0) by { NothingIsTruthful(env); }
      if !board.claimed || req.auth.None? || req.pre.None? || env.partition.None? {
        return false, [];
      }
      if req.contentLen > env.partition.value {
        return false, [];
      }
      var preOk := board.CheckHttpPre(MacLayout.Ota, req.contentLen, req.pre.value);
      if !preOk {
        return false, [];
      }
      ops := ops + [Begin(env.beginOk)];
      TruthfulOne(Begin(env.beginOk), env, 0);
      if !env.beginOk {
        return false, [Begin(false)];
      }
      CompleteHasBody(env, req.body, req.contentLen, 0, 0, 0);
      ghost var ws, tail;
      ok, ws, tail := ReceiveImage(req, env);
      if !ok {
        trace := [Begin(true)] + ws + tail;
        Traced(old(ops), ws, tail, ops, env);
        return;
      }
      assert ws + tail == ws && old(ops) + [Begin(true)] + ws + tail == old(ops) + [Begin(true)] + ws;
      var digest := sha(req.body[..req.contentLen]);
      ok := board.CheckHttp(MacLayout.Ota, digest, req.auth.value);
      if !ok {
        ops := ops + [Abort];
        trace := [Begin(true)] + ws + [Abort];
        AbortIsTail(ws, env);
        Traced(old(ops), ws, [Abort], ops, env);
        return;
      }
      ops := ops + [End(env.endOk)];
      if !env.endOk {
        trace := [Begin(true)] + ws + [End(false)];
        EndIsTail(ws, env);
        Traced(old(ops), ws, [End(false)], ops, env);
        return false, trace;
      }
      ops := ops + [Switch(env.activateOk)];
      trace := [Begin(true)] + ws + [End(true), Switch(env.activateOk)];
      SwitchIsTail(old(ops), ws, env);
      Traced(old(ops), ws, [End(true), Switch(env.activateOk)], ops, env);
      if !env.activateOk {
        return false, trace;
      }
      board.NonceBump();
    }
  }

  lemma NothingIsTruthful(env: Env)
    ensures forall at :: Truthful([], env, at)
  {
  }

  lemma AbortIsTail(ws: seq<FlashOp>, env: Env)
    requires Truthful(ws, env, 0)
    ensures IsTail([Abort]) && Truthful(ws + [Abort], env, 0)
  {
    TruthfulConcat(ws, [Abort], env, 0);
    TruthfulOne(Abort, env, |Writes(ws)|);
  }

  lemma WriteIsTruthful(ws: seq<FlashOp>, chunk: FlashOp, env: Env, at: nat)
    requires Truthful(ws, env, 0) && chunk.Write? && |Writes(ws)| == at && chunk.ok == env.writeOk(at)
    ensures Truthful(ws + [chunk], env, 0)
  {
    TruthfulConcat(ws, [chunk], env, 0);
    TruthfulOne(chunk, env, at);
  }

  lemma FailedWriteIsTail(before: seq<FlashOp>, ws: seq<FlashOp>, chunk: FlashOp, env: Env)
    requires Truthful(ws + [chunk], env, 0) && chunk.Write? && !chunk.ok
    ensures IsTail([chunk, Abort]) && Truthful(ws + [chunk, Abort], env, 0)
    ensures before + ws + [chunk] + [Abort] == before + ws + [chunk, Abort]
  {
    TruthfulConcat(ws + [chunk], [Abort], env, 0);
    TruthfulOne(Abort, env, |Writes(ws + [chunk])|);
    assert ws + [chunk] + [Abort] == ws + [chunk, Abort];
  }

  lemma EndIsTail(ws: seq<FlashOp>, env: Env)
    requires Truthful(ws, env, 0) && !env.endOk
    ensures IsTail([End(false)]) && Truthful(ws + [End(false)], env, 0)
  {
    TruthfulConcat(ws, [End(false)], env, 0);
    TruthfulOne(End(false), env, |Writes(ws)|);
  }

  lemma SwitchIsTail(before: seq<FlashOp>, ws: seq<FlashOp>, env: Env)
    requires Truthful(ws, env, 0) && env.endOk
    ensures
      var tail := [End(true), Switch(env.activateOk)];
      && IsTail(tail) && Truthful(ws + tail, env, 0)
      && before + [Begin(true)] + ws + [End(true)] + [Switch(env.activateOk)] == before + [Begin(true)] + ws + tail
  {
    var tail := [End(true), Switch(env.activateOk)];
    assert tail == [End(true)] + [Switch(env.activateOk)];
    TruthfulConcat(ws, tail, env, 0);
    TruthfulConcat([End(true)], [Switch(env.activateOk)], env, |Writes(ws)|);
    TruthfulOne(End(true), env, |Writes(ws)|);
    TruthfulOne(Switch(env.activateOk), env, |Writes(ws)| + |Writes([End(true)])|);
  }

  /** Where the handler's calls stand in the whole log. */
  lemma Traced(before: seq<FlashOp>, ws: seq<FlashOp>, tail: seq<FlashOp>, ops: seq<FlashOp>, env: Env)
    requires AllWritten(ws) && IsTail(tail) && env.beginOk && Truthful(ws + tail, env, 0)
    requires ops == before + [Begin(true)] + ws + tail
    ensures
      var trace := [Begin(true)] + ws + tail;
      && ops == before + trace && WellUsed(trace) && Truthful(trace, env, 0)
      && (Switch(true) in trace <==> tail == [End(true), Switch(true)])
      && (!(tail[0].Write?) ==> Writes(trace) == Writes(ws))
  {
    var trace := [Begin(true)] + ws + tail;
    Assoc(before, [Begin(true)], ws);
    Assoc(before, [Begin(true)] + ws, tail);
    Assoc([Begin(true)], ws, tail);
    assert Bracketed(trace, ws, tail);
    TruthfulConcat([Begin(true)], ws + tail, env, 0);
    TruthfulOne(Begin(true), env, 0);
    TracedWrites(ws, tail);
    TracedSwitch(ws, tail);
  }

  lemma TracedWrites(ws: seq<FlashOp>, tail: seq<FlashOp>)
    requires IsTail(tail)
    ensures |Writes([Begin(true)])| == 0
    ensures !tail[0].Write? ==> Writes([Begin(true)] + ws + tail) == Writes(ws)
  {
    WritesConcat([Begin(true)] + ws, tail);
    WritesConcat([Begin(true)], ws);
    assert [Begin(true)][1..] == [];
    if !tail[0].Write? {
      WritesOfOthers(tail);
    }
  }

  lemma TracedSwitch(ws: seq<FlashOp>, tail: seq<FlashOp>)
    requires AllWritten(ws) && IsTail(tail)
    ensures Switch(true) in [Begin(true)] + ws + tail <==> tail == [End(true), Switch(true)]
  {
    assert Switch(true) !in ws;
    assert Switch(true) in [Begin(true)] + ws + tail <==>
           Switch(true) in [Begin(true)] || Switch(true) in ws || Switch(true) in tail;
  }

  lemma {:induction false} WritesOfOthers(tail: seq<FlashOp>)
    requires forall i :: 0 <= i < |tail| ==> !tail[i].Write?
    ensures Writes(tail) == []
  {
    if tail != [] {
      WritesOfOthers(tail[1..]);
    }
  }
}
