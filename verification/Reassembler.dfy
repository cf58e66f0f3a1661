/** The incremental reassembler of common/h4.zig over caller-owned storage,
    proved against the one-shot parser for every way of cutting the stream. */
module Reassembling {
  import opened Bytes
  import opened H4

  datatype FeedResult = Fed(consumed: nat, packet: Option<seq<byte>>) | Failed(error: Error)

  /** The bytes in the buffer that still count: a packet already returned is about to be dropped. */
  function Pending(contents: seq<byte>, cap: nat): seq<byte> {
    if Framed(contents, cap) then [] else contents
  }

  /** What a buffer may hold between calls. */
  predicate Consistent(contents: seq<byte>, cap: nat) {
    match TotalLen(contents, cap)
    case Unknown => true
    case Known(n) => |contents| <= n
    case Bad(_) => contents == Offence(contents, cap)
  }

  /** Bytes asked for next: up to the next point where the header says more. */
  function Want(contents: seq<byte>, cap: nat): (n: nat)
    requires Unfinished(contents, cap)
    ensures n > 0
  {
    match TotalLen(contents, cap)
    case Known(n) => n - |contents|
    case Unknown => if contents == [] then 1 else 1 + HeaderLen(FromByte(contents[0]).value) - |contents|
  }

  /** Growing by no more than was asked for never runs past the packet or the storage. */
  lemma GrowByWant(contents: seq<byte>, x: seq<byte>, cap: nat)
    requires cap >= 5 && Unfinished(contents, cap) && |x| <= Want(contents, cap)
    ensures |contents + x| <= cap
    ensures Consistent(contents + x, cap)
  {
    var s := contents + x;
    if TotalLen(contents, cap).Known? {
      TotalLenStable(contents, x, cap);
    } else if contents == [] {
      assert s == x;
      if |x| == 1 {
        assert x[..1] == x;
      }
    } else {
      assert s[0] == contents[0];
      var t := FromByte(s[0]).value;
      assert |s| <= 1 + HeaderLen(t);
      assert TotalLen(s, cap).Bad? ==> s[..1 + HeaderLen(t)] == s;
    }
  }

  /** What one call of `feed` has to achieve, said about the whole stream: nothing about steps. */
  predicate Feeds(pending: seq<byte>, input: seq<byte>, cap: nat, r: FeedResult, after: seq<byte>) {
    var s := pending + input;
    match TotalLen(s, cap)
    case Bad(e) => r == Failed(e) && after == Offence(s, cap)
    case Unknown => r == Fed(|input|, None) && after == s
    case Known(n) =>
      if n <= |s| then |pending| <= n && r == Fed(n - |pending|, Some(s[..n])) && after == s[..n]
      else r == Fed(|input|, None) && after == s
  }

  /** The test before the loop: an old error repeats, a packet already returned is dropped. */
  lemma FeedStart(contents: seq<byte>, input: seq<byte>, cap: nat)
    requires Consistent(contents, cap)
    ensures
      match TotalLen(contents, cap)
      case Bad(e) => Feeds(Pending(contents, cap), input, cap, Failed(e), contents)
      case Unknown => Unfinished(Pending(contents, cap), cap)
      case Known(_) => Unfinished(Pending(contents, cap), cap)
    ensures Consistent([], cap)
  {
    if TotalLen(contents, cap).Bad? {
      TotalLenStable(contents, input, cap);
    }
  }

  /** One round of the copy loop: after taking `input[i..j]` the call is finished or can go on. */
  lemma FeedRound(pending: seq<byte>, input: seq<byte>, i: nat, j: nat, cap: nat)
    requires cap >= 5 && i <= j <= |input|
    requires Unfinished(pending + input[..i], cap) && j - i <= Want(pending + input[..i], cap)
    ensures
      var now := pending + input[..j];
      && now == pending + input[..i] + input[i..j]
      && |now| <= cap
      && Consistent(now, cap)
      && match TotalLen(now, cap)
         case Bad(e) => Feeds(pending, input, cap, Failed(e), now)
         case Unknown => Unfinished(now, cap)
         case Known(n) => if n == |now| then Feeds(pending, input, cap, Fed(j, Some(now)), now) else Unfinished(now, cap)
  {
    hide TotalLen, Offence, Want;
    var now := pending + input[..j];
    assert now == pending + input[..i] + input[i..j];
    GrowByWant(pending + input[..i], input[i..j], cap);
    assert pending + input == now + input[j..];
    if !TotalLen(now, cap).Unknown? {
      TotalLenStable(now, input[j..], cap);
      assert (pending + input)[..|now|] == now;
    }
  }

  /** One call cuts at most one packet off the front of the stream and leaves the rest to be parsed. */
  lemma FeedParse(contents: seq<byte>, input: seq<byte>, cap: nat, r: FeedResult, after: seq<byte>)
    requires Consistent(contents, cap)
    requires Feeds(Pending(contents, cap), input, cap, r, after)
    ensures
      var whole := Parse(Pending(contents, cap) + input, cap);
      if r.Failed? then
        whole == Parsed([], after, Some(r.error)) && Pending(after, cap) == after
      else if r.packet.None? then
        r.consumed == |input| && whole == Parsed([], after, None) && Pending(after, cap) == after
      else
        && 0 < r.consumed <= |input|
        && Pending(after, cap) == []
        && var tail := Parse(input[r.consumed..], cap);
           whole == Parsed([r.packet.value] + tail.packets, tail.rest, tail.error)
  {
    hide TotalLen, Offence;
    var pending := Pending(contents, cap);
    var s := pending + input;
    EmptyUnfinished(cap);
    if !TotalLen(pending, cap).Unknown? {
      TotalLenStable(pending, input, cap);
    }
    match TotalLen(s, cap)
    case Unknown =>
    case Bad(_) => OffenceCut(s, cap);
    case Known(n) =>
      if n <= |s| {
        TotalLenCut(s, n, cap);
        assert |pending| < n by {
          if n <= |pending| {
            KnownEarlier(pending, input, n, cap);
          }
        }
        assert s[n..] == input[n - |pending|..];
      }
  }

  /** A length announced within the first bytes was already known from them. */
  lemma KnownEarlier(s: seq<byte>, more: seq<byte>, n: nat, cap: nat)
    requires TotalLen(s + more, cap) == Known(n) && n <= |s|
    ensures TotalLen(s, cap) == Known(n)
  {
    var t := FromByte((s + more)[0]).value;
    assert (s + more)[1..1 + HeaderLen(t)] == s[1..1 + HeaderLen(t)];
  }

  class Reassembler {
    const buf: array<byte>
    var len: nat

    ghost predicate Valid()
      reads this, buf
    {
      && buf.Length >= 1 + 4
      && len <= buf.Length
      && Consistent(buf[..len], buf.Length)
    }

    function Contents(): seq<byte>
      reads this, buf
      requires len <= buf.Length
    {
      buf[..len]
    }

    constructor (storage: array<byte>)
      requires storage.Length >= 1 + 4
      ensures Valid() && buf == storage && Contents() == []
    {
      buf := storage;
      len := 0;
    }

    method Reset()
      requires Valid()
      modifies this`len
      ensures Valid() && Contents() == []
    {
      len := 0;
    }

    /** Appends `n` bytes of the input to the buffer. */
    method Append(input: seq<byte>, from: nat, n: nat)
      requires from + n <= |input| && len + n <= buf.Length
      modifies this`len, buf
      ensures len == old(len) + n
      ensures Contents() == old(Contents()) + input[from..from + n]
    {
      forall i | 0 <= i < n {
        buf[len + i] := input[from + i];
      }
      len := len + n;
    }

    method Feed(input: seq<byte>) returns (r: FeedResult)
      requires Valid()
      modifies this`len, buf
      ensures Valid()
      ensures Feeds(old(Pending(Contents(), buf.Length)), input, buf.Length, r, Contents())
    {
      hide TotalLen, Offence, Want, Consistent;
      ghost var cap := buf.Length;
      ghost var pending := Pending(Contents(), cap);
      FeedStart(Contents(), input, cap);
      var first := TotalLen(buf[..len], buf.Length);
      if first.Bad? {
        return Failed(first.error);
      }
      if first == Known(len) {
        len := 0;
      }

      var consumed := 0;
      assert Contents() == pending + input[..consumed];
      while consumed < |input|
        invariant consumed <= |input| && len <= buf.Length
        invariant Contents() == pending + input[..consumed]
        invariant Unfinished(Contents(), cap) && Consistent(Contents(), cap)
      {
        var n := Want(buf[..len], buf.Length);
        if |input| - consumed < n {
          n := |input| - consumed;
        }
        FeedRound(pending, input, consumed, consumed + n, cap);
        Append(input, consumed, n);
        consumed := consumed + n;

        var now := TotalLen(buf[..len], buf.Length);
        if now.Bad? {
          return Failed(now.error);
        }
        if now == Known(len) {
          return Fed(consumed, Some(buf[..len]));
        }
      }
      assert input[..consumed] == input;
      r := Fed(consumed, None);
    }

    /** The receive loops of bridge.zig and session.zig: feed until the chunk is used up.
        Every packet is handed on in order; the first error ends the loop. */
    method FeedAll(input: seq<byte>) returns (packets: seq<seq<byte>>, error: Option<Error>)
      requires Valid()
      modifies this`len, buf
      ensures Valid()
      ensures input == [] ==> packets == [] && error == None && Contents() == old(Contents())
      ensures input != [] ==>
        var p := Parse(old(Pending(Contents(), buf.Length)) + input, buf.Length);
        && packets == p.packets
        && error == p.error
        && Pending(Contents(), buf.Length) == p.rest
    {
      hide TotalLen, Offence, Consistent;
      packets := [];
      error := None;
      var rest := input;
      ghost var cap := buf.Length;
      ghost var whole := Parse(Pending(Contents(), cap) + input, cap);
      while rest != []
        invariant Valid() && error == None
        invariant rest == input ==> packets == [] && Contents() == old(Contents())
        invariant rest != input && rest == [] ==> whole == Parsed(packets, Pending(Contents(), cap), None)
        invariant rest != [] ==>
          var p := Parse(Pending(Contents(), cap) + rest, cap);
          whole == Parsed(packets + p.packets, p.rest, p.error)
        decreases |rest|
      {
        ghost var before := Contents();
        EmptyUnfinished(cap);
        var r := Feed(rest);
        FeedParse(before, rest, cap, r, Contents());
        match r
        case Failed(e) =>
          error := Some(e);
          return;
        case Fed(n, pkt) =>
          rest := rest[n..];
          if pkt.Some? {
            ghost var tail := Parse(rest, cap);
            assert packets + ([pkt.value] + tail.packets) == packets + [pkt.value] + tail.packets;
            assert Pending(Contents(), cap) + rest == rest;
            packets := packets + [pkt.value];
          }
          assert packets + [] == packets;
      }
    }

    /** A whole connection: chunks as the network happens to deliver them, fed until one fails.
        The outcome depends on the bytes only, not on how they were cut. */
    method FeedStream(chunks: seq<seq<byte>>) returns (packets: seq<seq<byte>>, error: Option<Error>)
      requires Valid() && Unfinished(Pending(Contents(), buf.Length), buf.Length)
      modifies this`len, buf
      ensures Valid()
      ensures
        var p := Parse(old(Pending(Contents(), buf.Length)) + Flatten(chunks), buf.Length);
        && packets == p.packets
        && error == p.error
        && Pending(Contents(), buf.Length) == p.rest
    {
      hide TotalLen, Offence, Consistent;
      ghost var cap := buf.Length;
      ghost var start := Pending(Contents(), cap);
      packets := [];
      error := None;
      var i := 0;
      assert start + Flatten(chunks[..0]) == start;
      while i < |chunks|
        invariant i <= |chunks| && Valid() && error == None
        invariant Parse(start + Flatten(chunks[..i]), cap) == Parsed(packets, Pending(Contents(), cap), None)
      {
        ghost var seen := start + Flatten(chunks[..i]);
        ghost var later := Flatten(chunks[i + 1..]);
        ParseResume(seen, chunks[i], cap);
        FlattenSplit(chunks, i);
        Assoc(start, Flatten(chunks[..i]), chunks[i]);
        Assoc(start, Flatten(chunks[..i + 1]), later);
        var got, err := FeedAll(chunks[i]);
        if chunks[i] == [] {
          assert seen + chunks[i] == seen;
        } else {
          packets := packets + got;
          if err.Some? {
            error := err;
            ParseResume(seen + chunks[i], later, cap);
            return;
          }
        }
        i := i + 1;
      }
      assert chunks[..i] == chunks;
    }
  }
}
