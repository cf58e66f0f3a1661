/** The handshake on a stream (host/handshake.zig, firmware/main/auth.c): what each side reads and writes, byte for byte.
    Reads come in any pieces; a read that yields nothing is the deadline or the end of the stream. */
module HandshakeIo {
  import opened Bytes
  import opened MacLayout

  type Key = seq<byte>

  const MAC_LEN: nat := 32

  type Mac = (Key, seq<byte>) -> seq<byte>

  datatype Silence = TimedOut | EndOfStream

  datatype Outcome = Done | AuthFailed | SendFailed | NoAnswer(why: Silence)

  /** What a read finds: up to n bytes, the deadline, or the end of the stream. */
  datatype Arrival = Arrive(n: nat) | Late | Closed

  // ------------------------------------------------------------------
  // Reading
  // ------------------------------------------------------------------

  /** How many bytes the next read takes. */
  function Taken(incoming: seq<byte>, arrivals: seq<Arrival>, room: nat): (n: nat)
    ensures n <= room && n <= |incoming| && (n > 0 ==> arrivals != [])
  {
    if arrivals == [] || !arrivals[0].Arrive? then 0 else Min(Min(arrivals[0].n, room), |incoming|)
  }

  /** Why it takes none. */
  function Why(arrivals: seq<Arrival>): Silence {
    if arrivals != [] && arrivals[0].Closed? then EndOfStream else TimedOut
  }

  /** The bytes and arrivals left after reading n bytes, or after stopping short, and why it stopped. */
  datatype Read = Read(left: seq<byte>, arrivals: seq<Arrival>, short: Option<Silence>)

  function Tail(arrivals: seq<Arrival>): seq<Arrival> {
    if arrivals == [] then [] else arrivals[1..]
  }

  function Reading(incoming: seq<byte>, arrivals: seq<Arrival>, n: nat): Read
    decreases |arrivals|
  {
    if n == 0 then Read(incoming, arrivals, None)
    else
      var m := Taken(incoming, arrivals, n);
      if m == 0 then Read(incoming, Tail(arrivals), Some(Why(arrivals)))
      else Reading(incoming[m..], arrivals[1..], n - m)
  }

  /** The bytes that arrive before the first read that yields nothing. */
  function Granted(arrivals: seq<Arrival>): nat {
    if arrivals == [] || !arrivals[0].Arrive? || arrivals[0].n == 0 then 0 else arrivals[0].n + Granted(arrivals[1..])
  }

  /** Reading n bytes succeeds exactly when that many have been sent and arrive in time, and then takes exactly the next n;
      otherwise it takes fewer. */
  lemma {:induction false} ReadingIff(incoming: seq<byte>, arrivals: seq<Arrival>, n: nat)
    ensures
      var r := Reading(incoming, arrivals, n);
      && (r.short.None? <==> n == 0 || (n <= |incoming| && n <= Granted(arrivals)))
      && (r.short.None? ==> n <= |incoming| && r.left == incoming[n..])
      && (r.short.Some? ==>
            |r.left| <= |incoming| && |incoming| - |r.left| < n && r.left == incoming[|incoming| - |r.left|..])
    decreases |arrivals|
  {
    if n > 0 {
      var m := Taken(incoming, arrivals, n);
      if m > 0 {
        ReadingIff(incoming[m..], arrivals[1..], n - m);
      }
    }
  }

  /** The end of the stream is reported exactly when it is what the first fruitless read finds. */
  lemma {:induction false} ShortReason(incoming: seq<byte>, arrivals: seq<Arrival>, n: nat, k: nat)
    requires k < |arrivals| && (forall i :: 0 <= i < k ==> arrivals[i].Arrive? && arrivals[i].n > 0)
    requires arrivals[k].Closed? || arrivals[k].Late?
    requires Granted(arrivals) < n <= |incoming|
    ensures Reading(incoming, arrivals, n).short == Some(if arrivals[k].Closed? then EndOfStream else TimedOut)
    decreases k
  {
    if k > 0 {
      var m := Taken(incoming, arrivals, n);
      assert m == arrivals[0].n;
      assert forall i :: 0 <= i < k - 1 ==> arrivals[1..][i] == arrivals[i + 1];
      ShortReason(incoming[m..], arrivals[1..], n - m, k - 1);
    }
  }

  /** One end of a connection. Reads that are not foreseen in `arrivals` run into the deadline; `writes` writes succeed, and
      the next one fails after `part` bytes. */
  class Stream {
    var incoming: seq<byte>
    var outgoing: seq<byte>
    var arrivals: seq<Arrival>
    var writes: nat
    const part: nat

    constructor (incoming: seq<byte>, arrivals: seq<Arrival>, writes: nat, part: nat)
      ensures this.incoming == incoming && this.outgoing == [] && this.arrivals == arrivals
      ensures this.writes == writes && this.part == part
    {
      this.incoming, this.outgoing, this.arrivals, this.writes, this.part := incoming, [], arrivals, writes, part;
    }

    /** Some bytes, or why there are none. */
    method ReadSome(room: nat) returns (data: seq<byte>, why: Silence)
      modifies this`incoming, this`arrivals
      ensures var n := Taken(old(incoming), old(arrivals), room);
        data == old(incoming)[..n] && incoming == old(incoming)[n..]
      ensures data == [] ==> why == Why(old(arrivals))
      ensures arrivals == Tail(old(arrivals))
    {
      data, why := [], TimedOut;
      if arrivals == [] {
        return;
      }
      var next := arrivals[0];
      arrivals := arrivals[1..];
      if next.Closed? {
        why := EndOfStream;
      } else if next.Arrive? {
        var n := Min(Min(next.n, room), |incoming|);
        data := incoming[..n];
        incoming := incoming[n..];
      }
    }

    method Write(data: seq<byte>) returns (ok: bool)
      modifies this`outgoing, this`writes
      ensures ok <==> old(writes) > 0
      ensures ok ==> outgoing == old(outgoing) + data && writes == old(writes) - 1
      ensures !ok ==> outgoing == old(outgoing) + data[..Min(part, |data|)] && writes == 0
    {
      if writes == 0 {
        outgoing := outgoing + data[..Min(part, |data|)];
        return false;
      }
      outgoing, writes := outgoing + data, writes - 1;
      ok := true;
    }
  }

  lemma ReadingStep(incoming: seq<byte>, arrivals: seq<Arrival>, n: nat)
    requires n > 0
    ensures
      var m := Taken(incoming, arrivals, n);
      && incoming == incoming[..m] + incoming[m..] && |incoming[..m]| == m
      && Reading(incoming, arrivals, n) ==
         (if m == 0 then Read(incoming, Tail(arrivals), Some(Why(arrivals))) else Reading(incoming[m..], Tail(arrivals), n - m))
      && (m == 0 ==> incoming[m..] == incoming)
  {
  }

  /** readAllBy: fills the buffer with exactly the next bytes of the stream, or stops short; it never reads past it. */
  method ReadAllBy(s: Stream, buf: array<byte>) returns (short: Option<Silence>)
    modifies s`incoming, s`arrivals, buf
    ensures Read(s.incoming, s.arrivals, short) == Reading(old(s.incoming), old(s.arrivals), buf.Length)
    ensures short.None? ==> old(s.incoming) == buf[..] + s.incoming
  {
    hide Taken, Why, Reading, Tail;
    var got := 0;
    assert buf[..got] + s.incoming == s.incoming;
    while got < buf.Length
      invariant 0 <= got <= buf.Length
      invariant old(s.incoming) == buf[..got] + s.incoming
      invariant Reading(old(s.incoming), old(s.arrivals), buf.Length) == Reading(s.incoming, s.arrivals, buf.Length - got)
    {
      ghost var before := buf[..got];
      ReadingStep(s.incoming, s.arrivals, buf.Length - got);
      var data, why := s.ReadSome(buf.Length - got);
      if data == [] {
        return Some(why);
      }
      Assoc(before, data, s.incoming);
      Store(buf, got, data);
      got := got + |data|;
    }
    ReadingDone(s.incoming, s.arrivals);
    JoinSlices(buf[..], 0, got, got);
    short := None;
  }

  lemma ReadingDone(incoming: seq<byte>, arrivals: seq<Arrival>)
    ensures Reading(incoming, arrivals, 0) == Read(incoming, arrivals, None)
  {
  }

  method Store(buf: array<byte>, at: nat, data: seq<byte>)
    requires at + |data| <= buf.Length
    modifies buf
    ensures buf[..at + |data|] == old(buf[..at]) + data
  {
    var i := 0;
    while i < |data|
      invariant 0 <= i <= |data|
      invariant buf[..at + i] == old(buf[..at]) + data[..i]
    {
      buf[at + i] := data[i];
      TakeSnoc(data, i);
      TakeSnoc(buf[..], at + i);
      assert buf[..at + i + 1] == buf[..at + i] + [data[i]];
      i := i + 1;
    }
    assert data[..i] == data;
  }

  // ------------------------------------------------------------------
  // The two sides
  // ------------------------------------------------------------------

  /** The client's side, in every case: which read stops short and why, whether the proof can be sent, and what the board's
      proof says. It reads 64 bytes and no more, so nothing that follows the handshake is swallowed. */
  method ClientWith(s: Stream, psk: Key, cn: seq<byte>, mac: Mac) returns (r: Outcome)
    requires |cn| == NONCE_LEN
    modifies s
    ensures
      var first := Reading(old(s.incoming), old(s.arrivals), 32);
      var second := Reading(first.left, first.arrivals, 32);
      if first.short.Some? then r == NoAnswer(first.short.value) && s.outgoing == old(s.outgoing) && s.incoming == first.left
      else
        && |old(s.incoming)| >= 32
        && var sn := old(s.incoming)[..32];
           var sent := old(s.outgoing) + cn + mac(psk, Layout(ClientProof(sn, cn)));
           if old(s.writes) < 2 then r == SendFailed && s.outgoing <= sent && s.incoming == first.left
           else
             && s.outgoing == sent && s.incoming == second.left
             && if second.short.Some? then r == NoAnswer(second.short.value)
                else
                  && |old(s.incoming)| >= 64 && s.incoming == old(s.incoming)[64..]
                  && r == if old(s.incoming)[32..64] == mac(psk, Layout(BoardProof(cn, sn))) then Done else AuthFailed
  {
    hide Layout, Reading;
    var nonce, proof := new byte[NONCE_LEN], new byte[MAC_LEN];
    ghost var all := s.incoming;
    var short := ReadAllBy(s, nonce);
    if short.Some? {
      return NoAnswer(short.value);
    }
    var sn := nonce[..];
    FrontOf(all, sn, s.incoming);
    var ok := s.Write(cn);
    if !ok {
      PartsSent(old(s.outgoing), cn, mac(psk, Layout(ClientProof(sn, cn))), Min(s.part, |cn|));
      return SendFailed;
    }
    ok := s.Write(mac(psk, Layout(ClientProof(sn, cn))));
    if !ok {
      return SendFailed;
    }
    short := ReadAllBy(s, proof);
    if short.Some? {
      return NoAnswer(short.value);
    }
    SecondPart(all, sn, proof[..], s.incoming);
    if proof[..] == mac(psk, Layout(BoardProof(cn, sn))) {
      return Done;
    }
    return AuthFailed;
  }

  lemma FrontOf(all: seq<byte>, front: seq<byte>, rest: seq<byte>)
    requires all == front + rest
    ensures |front| <= |all| && rest == all[|front|..] && all[..|front|] == front
  {
  }

  lemma PartsSent(before: seq<byte>, a: seq<byte>, b: seq<byte>, n: nat)
    requires n <= |a|
    ensures before + a[..n] <= before + a + b
  {
  }

  lemma SecondPart(all: seq<byte>, first: seq<byte>, second: seq<byte>, rest: seq<byte>)
    requires all == first + (second + rest)
    ensures |first| + |second| <= |all| && rest == all[|first| + |second|..]
    ensures all[..|first|] == first && all[|first|..|first| + |second|] == second
  {
  }

  /** The board's side, in every case. It answers with its own proof only after the client's has matched. */
  method BoardWith(s: Stream, psk: Key, sn: seq<byte>, mac: Mac) returns (r: Outcome)
    requires |sn| == NONCE_LEN
    modifies s
    ensures
      var read := Reading(old(s.incoming), old(s.arrivals), 64);
      if old(s.writes) == 0 then r == SendFailed && s.outgoing <= old(s.outgoing) + sn && s.incoming == old(s.incoming)
      else if read.short.Some? then
        r == NoAnswer(read.short.value) && s.outgoing == old(s.outgoing) + sn && s.incoming == read.left
      else
        && |old(s.incoming)| >= 64 && s.incoming == old(s.incoming)[64..]
        && var cn, proof := old(s.incoming)[..32], old(s.incoming)[32..64];
           var answer := mac(psk, Layout(BoardProof(cn, sn)));
           if proof != mac(psk, Layout(ClientProof(sn, cn))) then r == AuthFailed && s.outgoing == old(s.outgoing) + sn
           else if old(s.writes) < 2 then r == SendFailed && s.outgoing <= old(s.outgoing) + sn + answer
           else r == Done && s.outgoing == old(s.outgoing) + sn + answer
  {
    hide Layout, Reading;
    ghost var all := s.incoming;
    var ok := s.Write(sn);
    if !ok {
      return SendFailed;
    }
    var msg := new byte[NONCE_LEN + MAC_LEN];
    var short := ReadAllBy(s, msg);
    if short.Some? {
      return NoAnswer(short.value);
    }
    var cn, proof := msg[..NONCE_LEN], msg[NONCE_LEN..];
    assert msg[..] == cn + proof;
    Assoc(cn, proof, s.incoming);
    SecondPart(all, cn, proof, s.incoming);
    if proof != mac(psk, Layout(ClientProof(sn, cn))) {
      return AuthFailed;
    }
    ok := s.Write(mac(psk, Layout(BoardProof(cn, sn))));
    r := if ok then Done else SendFailed;
  }
}
