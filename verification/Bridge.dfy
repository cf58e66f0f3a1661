/** The board's stream pump (firmware/main/bridge.zig) as a step machine.

    Three actors share the stream buffer, the client slot and three atomic flags: the rx task,
    the tx task and the controller callback. Each has a program counter; one step is one access
    to shared state. A schedule is any list of actions: which actor moves, together with what its
    environment answers (poll results, handshake outcome, bytes received, bytes a send accepts).
    An actor with nothing to do stays where it is, so every list is a schedule.

    Connections are fresh numbers, never reused. A write to the stream buffer is one step, and
    there is one producer. A send on a connection that has been shut down or closed fails. */
module Bridge {
  import opened Bytes
  import opened H4

  type Conn = nat

  const RX_PACKET_LEN: nat := 1 + 4 + 1021
  const RX_CHUNK_LEN: nat := 1024
  const TX_CHUNK_LEN: nat := 1024
  const STREAM_BUFFER_LEN: nat := 16 * 1024

  /** Why a client was dropped; `on` is the connection whose send failed. */
  datatype Reason = SendFailed(on: Conn) | HostClosed | ProtocolError

  datatype RxPc =
    | Poll
    | Ready(acceptable: bool)
    // acceptClient
    | Handshaking(peer: Conn)
    | Swap(peer: Conn)
    | Shut(peer: Conn, prev: Option<Conn>)
    | ResetRe(peer: Conn, prev: Option<Conn>)
    | LowerIdle(peer: Conn, prev: Option<Conn>)
    | RaisePause(peer: Conn, prev: Option<Conn>)
    | WaitIdle(peer: Conn, prev: Option<Conn>)
    | CloseOld(peer: Conn, prev: Option<Conn>)
    | ClearFailed(peer: Conn)
    | Drain(peer: Conn)
    | Publish(peer: Conn)
    | LowerPause(peer: Conn)
    // rxTask, after accepting
    | CheckFailed
    | DropSwap(why: Reason)
    | DropClose(gone: Conn, why: Reason)
    | Receive
    | Feeding(conn: Conn, chunk: seq<byte>)

  datatype TxPc =
    | Top
    | StoreIdle
    | ClearIdle
    | Take
    | LoadClient(chunk: seq<byte>)
    | Sending(conn: Conn, left: seq<byte>)
    | Report(conn: Conn)

  datatype CbPc = Waiting | CheckSpace(pkt: seq<byte>) | Enqueue(pkt: seq<byte>)

  /** The bytes that went through the stream buffer and where they ended up. */
  datatype Ledger = Ledger(
    queued: seq<seq<byte>>,            // packets written to the buffer
    stream: seq<byte>,                 // the bytes written to it
    taken: nat,                        // how many of those have been read from it
    start: map<Conn, nat>,             // |queued| when the drain for a connection ended
    offset: map<Conn, nat>,            // taken at that moment
    wire: map<Conn, seq<byte>>)        // bytes sent on a connection up to its first failed send

  /** What else happened so far. Neither record influences a step. */
  datatype History = History(
    broken: set<Conn>,                 // connections a send failed on
    failedOn: Conn,                    // the connection of the failure tx reported last
    refused: set<Conn>,                // peers that did not prove the key
    drops: seq<(Conn, Reason)>,
    received: map<Conn, seq<byte>>,    // bytes read from a connection
    handed: map<Conn, seq<seq<byte>>>) // packets given to sendToController for it

  datatype State = State(
    client: Option<Conn>,
    pause: bool,
    idle: bool,
    failed: bool,
    sb: seq<byte>,
    down: set<Conn>,                   // shut down or closed
    next: Conn,                        // the next connection number
    rx: RxPc,
    polled: Option<Conn>,              // rxTask's local `client`
    readable: bool,
    pending: seq<byte>,                // the reassembler's unfinished packet
    tx: TxPc,
    cb: CbPc,
    l: Ledger,
    h: History)

  /** How far a peer's handshake has come: rx is blocked in it while tx and the callback run. */
  datatype Shake = Underway | Proved | Refused

  datatype RxEnv = RxEnv(
    pollFailed: bool,
    acceptable: bool,
    readable: bool,
    accepted: bool,
    shake: Shake,
    take: nat,
    data: seq<byte>)

  /** `take` bytes are available when tx reads, `sent` bytes are accepted by a send (0: it failed). */
  datatype TxEnv = TxEnv(take: nat, sent: nat)

  datatype Action = RxStep(rx: RxEnv) | TxStep(tx: TxEnv) | CbStep(pkt: seq<byte>)

  const INITIAL := State(
    None, false, false, false, [], {}, 0, Poll, None, false, [], Top, Waiting,
    Ledger([], [], 0, map[], map[], map[]), History({}, 0, {}, [], map[], map[]))

  function AsSet(c: Option<Conn>): set<Conn> {
    if c.Some? then {c.value} else {}
  }

  /** One call of the reassembler: its contract is `Reassembling.Feeds`. */
  datatype Fed = Fed(packet: Option<seq<byte>>, left: seq<byte>, pending: seq<byte>) | FeedError

  function FeedOnce(pending: seq<byte>, chunk: seq<byte>): Fed {
    var s := pending + chunk;
    match TotalLen(s, RX_PACKET_LEN)
    case Bad(_) => FeedError
    case Unknown => Fed(None, [], s)
    case Known(n) => if n <= |s| then Fed(Some(s[..n]), s[n..], []) else Fed(None, [], s)
  }

  // ------------------------------------------------------------------
  // rx task
  // ------------------------------------------------------------------

  function AfterDrop(why: Reason): RxPc {
    if why.SendFailed? then Receive else Poll
  }

  /** One read of drainStreamBuffer: an empty one ends the drain and starts the new connection's record. */
  function DrainNext(s: State, e: RxEnv, f: Conn): State {
    if s.sb == [] then
      s.(rx := Publish(f),
         l := s.l.(start := s.l.start[f := |s.l.queued|], offset := s.l.offset[f := s.l.taken],
                   wire := s.l.wire[f := []]),
         h := s.h.(received := s.h.received[f := []], handed := s.h.handed[f := []]))
    else
      var n := Min(Min(e.take + 1, TX_CHUNK_LEN), |s.sb|);
      s.(sb := s.sb[n..], l := s.l.(taken := s.l.taken + n))
  }

  /** A peer that does not prove the key is closed. */
  function ShakeNext(s: State, shake: Shake, f: Conn): State {
    match shake
    case Underway => s
    case Proved => s.(rx := Swap(f))
    case Refused => s.(rx := CheckFailed, down := s.down + {f}, h := s.h.(refused := s.h.refused + {f}))
  }

  /** acceptClient from the moment a connection has been accepted. */
  function AcceptNext(s: State, e: RxEnv): State {
    match s.rx
    case Handshaking(f) => ShakeNext(s, e.shake, f)
    case Swap(f) => s.(client := None, rx := Shut(f, s.client))
    case Shut(f, prev) => s.(down := s.down + AsSet(prev), rx := ResetRe(f, prev))
    case ResetRe(f, prev) => s.(pending := [], rx := LowerIdle(f, prev))
    case LowerIdle(f, prev) => s.(idle := false, rx := RaisePause(f, prev))
    case RaisePause(f, prev) => s.(pause := true, rx := WaitIdle(f, prev))
    case WaitIdle(f, prev) => if s.idle then s.(rx := CloseOld(f, prev)) else s
    case CloseOld(f, prev) => s.(down := s.down + AsSet(prev), rx := ClearFailed(f))
    case ClearFailed(f) => s.(failed := false, rx := Drain(f))
    case Drain(f) => DrainNext(s, e, f)
    case Publish(f) => s.(client := Some(f), rx := LowerPause(f))
    case LowerPause(f) => s.(pause := false, rx := CheckFailed)
    case _ => s
  }

  /** One round of the inner loop: a packet goes to the controller, an error drops the client. */
  function FeedNext(s: State, c: Conn, chunk: seq<byte>): State {
    match FeedOnce(s.pending, chunk)
    case FeedError => s.(pending := [], rx := DropSwap(ProtocolError))
    case Fed(pkt, left, pending) =>
      s.(pending := pending, rx := Feeding(c, left),
         h := if pkt.None? then s.h
              else s.h.(handed := s.h.handed[c := LookupAll(s.h.handed, c) + [pkt.value]]))
  }

  function VacateNext(s: State, why: Reason): State {
    if s.client.None? then s.(rx := AfterDrop(why))
    else s.(client := None, rx := DropClose(s.client.value, why),
            h := s.h.(drops := s.h.drops + [(s.client.value, why)]))
  }

  /** Acting on `tx_failed`, and dropClient. */
  function DropNext(s: State): State {
    match s.rx
    case CheckFailed =>
      if s.failed then s.(failed := false, rx := DropSwap(SendFailed(s.h.failedOn))) else s.(rx := Receive)
    case DropSwap(why) => VacateNext(s, why)
    case DropClose(c, why) => s.(down := s.down + {c}, rx := AfterDrop(why))
    case _ => s
  }

  function PollNext(s: State, e: RxEnv): State {
    if e.pollFailed then s
    else s.(rx := Ready(e.acceptable), polled := s.client, readable := e.readable && s.client.Some?)
  }

  function ReadyNext(s: State, e: RxEnv, acceptable: bool): State {
    if !acceptable || !e.accepted then s.(rx := CheckFailed)
    else s.(rx := Handshaking(s.next), next := s.next + 1)
  }

  function RecvNext(s: State, e: RxEnv): State {
    if s.readable && s.polled.Some? && s.client == s.polled then
      if e.data == [] then s.(rx := DropSwap(HostClosed))
      else ReceiveNext(s, s.polled.value, e.data[..Min(|e.data|, RX_CHUNK_LEN)])
    else s.(rx := Poll)
  }

  function ReceiveNext(s: State, c: Conn, data: seq<byte>): State {
    s.(rx := Feeding(c, data), h := s.h.(received := s.h.received[c := Lookup(s.h.received, c) + data]))
  }

  /** Polling, the accept decision, receiving and feeding the reassembler. */
  function IntakeNext(s: State, e: RxEnv): State {
    match s.rx
    case Poll => PollNext(s, e)
    case Ready(acceptable) => ReadyNext(s, e, acceptable)
    case Receive => RecvNext(s, e)
    case Feeding(c, chunk) => if chunk == [] then s.(rx := Poll) else FeedNext(s, c, chunk)
    case _ => s
  }

  function Lookup(m: map<Conn, seq<byte>>, c: Conn): seq<byte> {
    if c in m then m[c] else []
  }

  function LookupAll(m: map<Conn, seq<seq<byte>>>, c: Conn): seq<seq<byte>> {
    if c in m then m[c] else []
  }

  predicate Accepting(rx: RxPc) {
    || rx.Handshaking? || rx.Swap? || rx.Shut? || rx.ResetRe? || rx.LowerIdle? || rx.RaisePause? || rx.WaitIdle?
    || Exclusive(rx)
  }

  predicate Dropping(rx: RxPc) {
    rx.CheckFailed? || rx.DropSwap? || rx.DropClose?
  }

  /** From leaving the wait loop until clearing `tx_pause`. */
  predicate Exclusive(rx: RxPc) {
    rx.CloseOld? || rx.ClearFailed? || rx.Drain? || rx.Publish? || rx.LowerPause?
  }

  function RxNext(s: State, e: RxEnv): State {
    if Accepting(s.rx) then AcceptNext(s, e)
    else if Dropping(s.rx) then DropNext(s)
    else IntakeNext(s, e)
  }

  // ------------------------------------------------------------------
  // tx task
  // ------------------------------------------------------------------

  function TakeNext(s: State, e: TxEnv): State {
    var n := Min(Min(e.take, TX_CHUNK_LEN), |s.sb|);
    if n == 0 then s.(tx := Top)
    else s.(sb := s.sb[n..], tx := LoadClient(s.sb[..n]), l := s.l.(taken := s.l.taken + n))
  }

  /** One round of glue_send's loop: some bytes go out, or the send fails for good. */
  function SendNext(s: State, e: TxEnv, c: Conn, left: seq<byte>): State {
    var n := if c in s.down then 0 else Min(e.sent, |left|);
    if n == 0 then s.(tx := Report(c), h := s.h.(broken := s.h.broken + {c}))
    else
      s.(tx := if n == |left| then Top else Sending(c, left[n..]),
         l := if c in s.h.broken then s.l
              else s.l.(wire := s.l.wire[c := Lookup(s.l.wire, c) + left[..n]]))
  }

  function TxNext(s: State, e: TxEnv): State {
    match s.tx
    case Top => s.(tx := if s.pause then StoreIdle else ClearIdle)
    case StoreIdle => s.(idle := true, tx := Top)
    case ClearIdle => s.(idle := false, tx := Take)
    case Take => TakeNext(s, e)
    case LoadClient(chunk) =>
      if s.client.None? then s.(tx := Top) else s.(tx := Sending(s.client.value, chunk))
    case Sending(c, left) => SendNext(s, e, c, left)
    case Report(c) => s.(failed := true, tx := Top, h := s.h.(failedOn := c))
  }

  // ------------------------------------------------------------------
  // controller callback
  // ------------------------------------------------------------------

  /** The buffer takes what fits; that it is always the whole packet is a theorem. */
  function CbNext(s: State, pkt: seq<byte>): State {
    match s.cb
    case Waiting => if s.client.None? then s else s.(cb := CheckSpace(pkt))
    case CheckSpace(p) =>
      if STREAM_BUFFER_LEN - |s.sb| < |p| then s.(cb := Waiting) else s.(cb := Enqueue(p))
    case Enqueue(p) =>
      var room := if |s.sb| < STREAM_BUFFER_LEN then STREAM_BUFFER_LEN - |s.sb| else 0;
      var written := p[..Min(room, |p|)];
      s.(sb := s.sb + written, cb := Waiting,
         l := s.l.(queued := s.l.queued + [written], stream := s.l.stream + written))
  }

  // ------------------------------------------------------------------
  // Schedules
  // ------------------------------------------------------------------

  function Step(s: State, a: Action): State {
    match a
    case RxStep(e) => RxNext(s, e)
    case TxStep(e) => TxNext(s, e)
    case CbStep(pkt) => CbNext(s, pkt)
  }

  function Exec(s: State, schedule: seq<Action>): State
    decreases |schedule|
  {
    if schedule == [] then s else Exec(Step(s, schedule[0]), schedule[1..])
  }

  /** rx does not lower `tx_idle` while tx stands between reading `tx_pause` and storing `tx_idle`. */
  predicate TimelyStep(s: State, a: Action) {
    a.RxStep? && s.rx.LowerIdle? ==> !s.tx.StoreIdle?
  }

  predicate Timely(s: State, schedule: seq<Action>)
    decreases |schedule|
  {
    schedule == [] || (TimelyStep(s, schedule[0]) && Timely(Step(s, schedule[0]), schedule[1..]))
  }

  /** The callback has nothing left to write: no packet, an empty one, or one that can never fit. */
  predicate CbDry(cb: CbPc) {
    match cb
    case Waiting => true
    case CheckSpace(p) => p == [] || |p| > STREAM_BUFFER_LEN
    case Enqueue(p) => p == []
  }

  /** If it does lower `tx_idle` then, there is no byte that could go astray: none queued, none about to be. */
  predicate HarmlessStep(s: State, a: Action) {
    a.RxStep? && s.rx.LowerIdle? && s.tx.StoreIdle? ==> s.sb == [] && CbDry(s.cb)
  }

  predicate Harmless(s: State, schedule: seq<Action>)
    decreases |schedule|
  {
    schedule == [] || (HarmlessStep(s, schedule[0]) && Harmless(Step(s, schedule[0]), schedule[1..]))
  }
}
