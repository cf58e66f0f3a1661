/** The manager's map of attached boards and their links, as objects (host/manager.zig, host/board.zig). The interleaving
    of these operations with the board threads is the subject of Manager. */
module ActiveBoards {
  import opened Bytes
  import opened KeyFile

  type StreamId = nat
  type Ip = (byte, byte, byte, byte)

  /** The streams that have been shut down. */
  class Network {
    var shut: set<StreamId>

    constructor ()
      ensures shut == {}
    {
      shut := {};
    }
  }

  function Streams(stream: Option<StreamId>): set<StreamId> {
    if stream.Some? then {stream.value} else {}
  }

  class Link {
    var stream: Option<StreamId>

    constructor ()
      ensures stream.None?
    {
      stream := None;
    }

    method Set(stream: Option<StreamId>)
      modifies this
      ensures this.stream == stream
    {
      this.stream := stream;
    }

    method Kill(net: Network)
      modifies net
      ensures net.shut == old(net.shut) + Streams(stream)
    {
      if stream.Some? {
        net.shut := net.shut + {stream.value};
      }
    }
  }

  class BoardCtx {
    const bdaddr: string
    const ip: Ip
    const link: Link

    constructor (bdaddr: string, ip: Ip)
      ensures this.bdaddr == bdaddr && this.ip == ip && fresh(link) && link.stream.None?
    {
      this.bdaddr, this.ip := bdaddr, ip;
      link := new Link();
    }
  }

  class Active {
    var boards: map<string, BoardCtx>

    constructor ()
      ensures Valid() && boards == map[]
    {
      boards := map[];
    }

    /** Every context is filed under its own address. */
    ghost predicate Valid()
      reads this
    {
      forall b :: b in boards ==> boards[b].bdaddr == b
    }

    /** True if newly claimed. A board back from another address gets its old link killed, and nothing else does. */
    method Claim(ctx: BoardCtx, net: Network, room: bool) returns (claimed: bool)
      requires Valid()
      modifies this, net
      ensures Valid()
      ensures claimed <==> ctx.bdaddr !in old(boards) && room
      ensures boards == if claimed then old(boards)[ctx.bdaddr := ctx] else old(boards)
      ensures net.shut == old(net.shut) +
        if ctx.bdaddr in old(boards) && old(boards)[ctx.bdaddr].ip != ctx.ip
        then Streams(old(boards)[ctx.bdaddr].link.stream) else {}
    {
      if ctx.bdaddr in boards {
        var known := boards[ctx.bdaddr];
        if known.ip != ctx.ip {
          known.link.Kill(net);
        }
        return false;
      }
      if !room {
        return false;
      }
      boards := boards[ctx.bdaddr := ctx];
      return true;
    }

    method Release(bdaddr: string)
      requires Valid()
      modifies this
      ensures Valid() && boards == old(boards) - {bdaddr}
    {
      boards := boards - {bdaddr};
    }

    /** The stream behind each board. */
    ghost function Links(): map<string, Option<StreamId>>
      reads this, set b | b in boards :: boards[b].link
    {
      map b | b in boards :: boards[b].link.stream
    }

    /** Shuts down exactly the live links of the boards whose key is gone. */
    method RevokeMissing(entries: seq<string>, net: Network)
      requires Valid()
      modifies net
      ensures forall st :: st in net.shut <==> st in old(net.shut) || exists b :: Revoked(Links(), entries, b, st)
    {
      hide Lookup;
      ghost var links := Links();
      var todo := boards.Keys;
      while todo != {}
        invariant todo <= boards.Keys && old(net.shut) <= net.shut
        invariant forall st :: st in net.shut ==> st in old(net.shut) || exists b :: Revoked(links, entries, b, st)
        invariant forall b, st :: b !in todo && Revoked(links, entries, b, st) ==> st in net.shut
        decreases todo
      {
        var b :| b in todo;
        var ctx := boards[b];
        todo := todo - {b};
        var psk := LookupPsk(entries, ctx.bdaddr);
        if psk.Some? {
          continue;
        }
        assert ctx.link.stream.Some? ==> Revoked(links, entries, b, ctx.link.stream.value);
        ctx.link.Kill(net);
      }
      assert Links() == links;
    }
  }

  /** A live link whose board has no key any more. */
  ghost predicate Revoked(links: map<string, Option<StreamId>>, entries: seq<string>, bdaddr: string, st: StreamId) {
    bdaddr in links && Lookup(entries, bdaddr).None? && links[bdaddr] == Some(st)
  }
}
